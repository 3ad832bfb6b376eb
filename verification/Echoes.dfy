/** Wrapped echoes: what is left of a ping command's echo in front of the router's
    report says nothing to the parser, wherever the line was wrapped. */
module Echoes {
  import opened Text
  import opened Huawei
  import opened PingOutput
  import opened PingReports
  import opened Exchange
  import opened Validated

  // ---- The characters of a command --------------------------------------------------------

  predicate IsEchoChar(c: char) { IsLetter(c) || IsDigit(c) || c in {' ', '-', '.', ':', '_'} }

  predicate EchoText(s: string) { forall i :: 0 <= i < |s| ==> IsEchoChar(s[i]) }

  /** No word but the first begins with `c`. */
  predicate NeverStarts(s: string, c: char) { forall i :: 0 <= i < |s| - 1 && s[i] == ' ' ==> s[i + 1] != c }

  lemma {:induction false} UnwordsEchoText(ts: seq<string>)
    requires forall i :: 0 <= i < |ts| ==> EchoText(ts[i])
    ensures EchoText(Unwords(ts))
  {
    if |ts| > 1 {
      UnwordsEchoText(ts[1..]);
    }
  }

  lemma {:induction false} UnwordsNeverStarts(ts: seq<string>, c: char)
    requires AllTokens(ts) && forall k :: 1 <= k < |ts| ==> ts[k][0] != c
    ensures NeverStarts(Unwords(ts), c)
    ensures ts != [] ==> Unwords(ts) != "" && Unwords(ts)[0] == ts[0][0]
  {
    if |ts| == 1 {
      assert IsToken(ts[0]);
    } else if |ts| > 1 {
      assert IsToken(ts[0]);
      UnwordsNeverStarts(ts[1..], c);
      StartsAfterWord(ts[0], Unwords(ts[1..]), c);
    }
  }

  lemma StartsAfterWord(w: string, rest: string, c: char)
    requires IsToken(w) && NeverStarts(rest, c) && rest != "" && rest[0] != c
    ensures NeverStarts(w + " " + rest, c)
  {
    var s := w + " " + rest;
    assert forall i :: 0 <= i < |w| ==> s[i] == w[i] && !IsSpace(w[i]);
    forall i | 0 <= i < |s| - 1 && s[i] == ' ' ensures s[i + 1] != c {
      if i == |w| {
        assert s[i + 1] == rest[0];
      } else if i > |w| {
        assert s[i] == rest[i - |w| - 1] && s[i + 1] == rest[i - |w|];
      }
    }
  }

  lemma CleanIsEchoText(s: string)
    requires CleanText(s)
    ensures EchoText(s) && IsToken(s)
  {}

  lemma NumberIsEchoText(n: int)
    ensures EchoText(IntText(n)) && IntText(n) != "" && (IsDigit(IntText(n)[0]) || IntText(n)[0] == '-')
  {}

  lemma HeadFlags()
    ensures forall w :: w in ["ping", "ipv6", "-vpn-instance", "vpn-instance"] ==> EchoText(w)
  {}

  lemma OptionFlags()
    ensures forall w :: w in ["-c", "-m", "-t", "-s", "-tc", "-tos", "-a"] ==> EchoText(w) && w[0] == '-'
  {}

  /** Every word of a command is made of such characters. */
  lemma WordsAreEchoText(j: Job)
    requires CleanJob(j)
    ensures forall k :: 0 <= k < |CommandWords(j)| ==> EchoText(CommandWords(j)[k])
  {
    hide IntText, EchoText, IsAddressText, CleanText, Milliseconds;
    HeadFlags();
    OptionFlags();
    JobIsEchoText(j);
    assert CommandWords(j) == HeadWords(j) + (OptionWords(j) + TailWords(j));
  }

  lemma JobIsEchoText(j: Job)
    requires CleanJob(j)
    ensures EchoText(j.target) && EchoText(j.source) && (j.vpnInstance != "" ==> EchoText(j.vpnInstance))
    ensures EchoText(IntText(j.count)) && EchoText(IntText(j.size)) && EchoText(IntText(j.tos))
    ensures EchoText(IntText(Milliseconds(j.packetInterval))) && EchoText(IntText(Milliseconds(j.timeout)))
  {
    hide IntText, EchoText, IsAddressText, CleanText, Milliseconds;
    AddressIsClean(j.target);
    AddressIsClean(j.source);
    CleanIsEchoText(j.target);
    CleanIsEchoText(j.source);
    if j.vpnInstance != "" {
      CleanIsEchoText(j.vpnInstance);
    }
    NumberIsEchoText(j.count);
    NumberIsEchoText(j.size);
    NumberIsEchoText(j.tos);
    NumberIsEchoText(Milliseconds(j.packetInterval));
    NumberIsEchoText(Milliseconds(j.timeout));
  }

  /** A word begins with a letter a flag, a number or an address can begin with, or
      it is the VPN instance. */
  predicate StartsLike(w: string, c: char, vpn: string) { w != "" && (w[0] != c || (vpn != "" && w == vpn)) }

  lemma WordsStart(j: Job, c: char)
    requires CleanJob(j) && c in {'t', 'o'}
    ensures forall k :: 1 <= k < |CommandWords(j)| ==> StartsLike(CommandWords(j)[k], c, j.vpnInstance)
  {
    hide IntText, CleanText, Milliseconds;
    HeadFlags();
    OptionFlags();
    NumberIsEchoText(j.count);
    NumberIsEchoText(j.size);
    NumberIsEchoText(j.tos);
    NumberIsEchoText(Milliseconds(j.packetInterval));
    NumberIsEchoText(Milliseconds(j.timeout));
    var hs, os, ts := HeadWords(j), OptionWords(j), TailWords(j);
    assert forall k :: 1 <= k < |hs| ==> StartsLike(hs[k], c, j.vpnInstance);
    assert forall k :: 0 <= k < |os| ==> StartsLike(os[k], c, j.vpnInstance);
    assert forall k :: 0 <= k < |ts| ==> StartsLike(ts[k], c, j.vpnInstance);
    assert CommandWords(j) == hs + (os + ts);
  }

  /** The echo of a command: harmless characters, and never both a word in t and a
      word in o, as the words of a lost request have. */
  ghost predicate IsEcho(s: string) {
    && (forall i :: 0 <= i < |s| ==> IsEchoChar(s[i]) || s[i] == '\n')
    && (NeverStarts(s, 't') || NeverStarts(s, 'o'))
  }

  lemma CommandIsEcho(j: Job)
    requires CleanJob(j)
    ensures EchoText(BuildCommand(j)) && IsEcho(BuildCommand(j))
  {
    hide BuildCommand, CommandWords, IsAddressText, CleanText, Unwords;
    CommandIsItsWords(j);
    CleanIsPrintable(j);
    WordsAreTokens(j);
    WordsAreEchoText(j);
    UnwordsEchoText(CommandWords(j));
    var c := if j.vpnInstance != "" && j.vpnInstance[0] == 't' then 'o' else 't';
    WordsStart(j, c);
    UnwordsNeverStarts(CommandWords(j), c);
  }

  // ---- Wrapping keeps them ---------------------------------------------------------------

  lemma {:induction false} WrappedNeverStarts(s: string, at: nat, c: char)
    requires NeverStarts(s, c) && c != '\n'
    ensures NeverStarts(WrappedAt(s, at), c)
    decreases |s|
  {
    if at > 0 && |s| > at {
      var a, rest := s[..at], WrappedAt(s[at..], at);
      NeverStartsSuffix(s, at, c);
      WrappedNeverStarts(s[at..], at, c);
      NewlineBetween(a, rest, c);
    }
  }

  lemma NeverStartsSuffix(s: string, k: nat, c: char)
    requires k <= |s| && NeverStarts(s, c)
    ensures NeverStarts(s[k..], c)
  {
    forall i | 0 <= i < |s[k..]| - 1 && s[k..][i] == ' ' ensures s[k..][i + 1] != c {
      assert s[k + i] == ' ' && s[k..][i + 1] == s[k + i + 1];
    }
  }

  lemma NewlineBetween(a: string, rest: string, c: char)
    requires NeverStarts(a, c) && NeverStarts(rest, c) && c != '\n'
    ensures NeverStarts(a + ("\n" + rest), c)
  {
    var s := a + ("\n" + rest);
    forall i | 0 <= i < |s| - 1 && s[i] == ' ' ensures s[i + 1] != c {
      if i + 1 < |a| {
        assert s[i] == a[i] && s[i + 1] == a[i + 1];
      } else if i + 1 > |a| {
        assert s[i] == ("\n" + rest)[i - |a|];
        assert i > |a| && s[i] == rest[i - |a| - 1] && s[i + 1] == rest[i - |a|];
      }
    }
  }

  lemma {:induction false} WrappedChars(s: string, at: nat)
    requires EchoText(s)
    ensures forall i :: 0 <= i < |WrappedAt(s, at)| ==> IsEchoChar(WrappedAt(s, at)[i]) || WrappedAt(s, at)[i] == '\n'
    decreases |s|
  {
    hide IsEchoChar;
    if at > 0 && |s| > at {
      WrappedChars(s[at..], at);
    }
  }

  lemma WrappedIsEcho(s: string, at: nat)
    requires EchoText(s) && IsEcho(s)
    ensures IsEcho(WrappedAt(s, at))
  {
    hide NeverStarts, EchoText, WrappedAt, IsEchoChar;
    WrappedChars(s, at);
    if NeverStarts(s, 't') {
      WrappedNeverStarts(s, at, 't');
    } else {
      WrappedNeverStarts(s, at, 'o');
    }
  }

  lemma EchoSuffix(s: string, k: nat)
    requires k <= |s| && IsEcho(s)
    ensures IsEcho(s[k..])
  {
    hide NeverStarts;
    assert forall i :: 0 <= i < |s[k..]| ==> s[k..][i] == s[k + i];
    if NeverStarts(s, 't') {
      NeverStartsSuffix(s, k, 't');
    } else {
      NeverStartsSuffix(s, k, 'o');
    }
  }

  // ---- The parser skips them --------------------------------------------------------------

  const COUNTED := "packet(s)"

  /** What follows the echo: a new line that does not begin with what follows a count. */
  predicate StartsReport(b: string) { b != "" && b[0] == '\n' && !(COUNTED <= SkipSpaces(b)) }

  lemma NotPrefix(lit: string, s: string, k: nat)
    requires k < |lit| && k < |s| && s[k] != lit[k]
    ensures !(lit <= s)
  {}

  lemma NoReplyInEcho(a: string, b: string)
    requires a != "" && IsEcho(a) && b != "" && b[0] == '\n'
    ensures MatchReply(a + b).None?
  {
    var s := a + b;
    assert "Sequence="[8] == '=' && '\n' !in "Sequence=";
    var k := if |a| < 9 then |a| else 8;
    assert "Sequence="[k] in "Sequence=";
    assert s[k] == if |a| < 9 then '\n' else a[8];
    NotPrefix("Sequence=", s, k);
  }

  lemma NoTimeoutInEcho(a: string, b: string)
    requires a != "" && IsEcho(a) && b != "" && b[0] == '\n'
    ensures !(REQUEST_TIME_OUT <= a + b)
  {
    hide IsEchoChar;
    var s := a + b;
    TimeoutLetters();
    var k := if |a| < 16 then |a|
             else if NeverStarts(a, 't') then (if a[7] == ' ' then 8 else 7)
             else (if a[12] == ' ' then 13 else 12);
    assert REQUEST_TIME_OUT[k] in REQUEST_TIME_OUT;
    assert s[k] == if k < |a| then a[k] else '\n';
    NotPrefix(REQUEST_TIME_OUT, s, k);
  }

  lemma TimeoutLetters()
    ensures |REQUEST_TIME_OUT| == 16 && '\n' !in REQUEST_TIME_OUT
    ensures REQUEST_TIME_OUT[7] == ' ' && REQUEST_TIME_OUT[8] == 't'
    ensures REQUEST_TIME_OUT[12] == ' ' && REQUEST_TIME_OUT[13] == 'o'
  {}

  lemma {:induction false} EchoHasNoReplies(a: string, b: string)
    requires IsEcho(a) && b != "" && b[0] == '\n'
    ensures FindReplies(a + b) == FindReplies(b) && CountTimeouts(a + b) == CountTimeouts(b)
  {
    hide IsEcho, MatchReply;
    if a == "" {
      assert a + b == b;
    } else {
      NoReplyInEcho(a, b);
      NoTimeoutInEcho(a, b);
      EchoSuffix(a, 1);
      assert (a + b)[1..] == a[1..] + b;
      EchoHasNoReplies(a[1..], b);
    }
  }

  lemma NoCountInEcho(a: string, b: string, word: string)
    requires a != "" && IsEcho(a) && StartsReport(b)
    ensures MatchCount(a + b, word).None?
  {
    hide MatchCount, MatchesCounted;
    var s := a + b;
    var p := CountedAt(s);
    assert s[|a|] == '\n';
    DigitRunStops(s, |a|);
    if p + 6 < |a| {
      assert s[p + 6] == a[p + 6];
      WrongLetter(s, word, 6);
    } else if p < |a| {
      WrongLetter(s, word, |a| - p);
    } else {
      assert s[|a|..] == b;
      SpaceRunReaches(s, DigitRun(s), |a|);
      WrongWord(s, word);
    }
  }

  /** A run of spaces that reaches the new line goes on like the spaces there. */
  lemma SpaceRunReaches(s: string, d: nat, m: nat)
    requires d <= m <= |s| && d + SpaceRun(s[d..]) >= m
    ensures s[d + SpaceRun(s[d..])..] == SkipSpaces(s[m..])
  {
    var p, n := d + SpaceRun(s[d..]), m + SpaceRun(s[m..]);
    assert forall i :: d <= i < |s| ==> s[i] == s[d..][i - d];
    assert forall i :: m <= i < |s| ==> s[i] == s[m..][i - m];
    assert (p < |s| ==> !IsReSpace(s[p])) && (n < |s| ==> !IsReSpace(s[n]));
    assert forall i :: m <= i < p || m <= i < n ==> IsReSpace(s[i]);
  }

  lemma WrongWord(s: string, word: string)
    requires !(COUNTED <= s[CountedAt(s)..])
    ensures MatchCount(s, word).None?
  {
    var d := DigitRun(s);
    assert s[d..][SpaceRun(s[d..])..] == s[CountedAt(s)..];
  }

  lemma {:induction false} EchoHasNoCount(a: string, b: string, word: string)
    requires IsEcho(a) && StartsReport(b)
    ensures FindCount(a + b, word) == FindCount(b, word)
  {
    hide IsEcho, StartsReport, MatchCount;
    if a == "" {
      assert a + b == b;
    } else {
      NoCountInEcho(a, b, word);
      EchoSuffix(a, 1);
      assert (a + b)[1..] == a[1..] + b;
      EchoHasNoCount(a[1..], b, word);
    }
  }

  /** Two outputs in which the parser finds the same. */
  ghost predicate SameFindings(a: string, b: string) {
    && FindReplies(a) == FindReplies(b) && CountTimeouts(a) == CountTimeouts(b)
    && FindCount(a, "transmitted") == FindCount(b, "transmitted")
    && FindCount(a, "received") == FindCount(b, "received")
  }

  lemma SameFindingsSameParse(a: string, b: string)
    requires SameFindings(a, b) && (Parse(b).Err? ==> Parse(b).error.CountMismatch?)
    ensures Parse(a) == Parse(b)
  {}

  lemma EchoIgnored(a: string, b: string)
    requires IsEcho(a) && StartsReport(b)
    ensures SameFindings(a + b, b)
  {
    hide IsEcho, FindReplies, FindCount, CountTimeouts;
    EchoHasNoReplies(a, b);
    EchoHasNoCount(a, b, "transmitted");
    EchoHasNoCount(a, b, "received");
  }

  lemma {:induction false} SpacesIgnored(spaces: string, s: string)
    requires forall i :: 0 <= i < |spaces| ==> IsSpace(spaces[i])
    ensures SameFindings(spaces + s, s)
  {
    hide FindReplies, FindCount, CountTimeouts;
    if spaces == "" {
      assert spaces + s == s;
    } else {
      SpacesIgnored(spaces[1..], s);
      assert (spaces + s)[1..] == spaces[1..] + s;
      OneSpaceIgnored(spaces + s);
    }
  }

  // ---- Where the anchor is found -----------------------------------------------------------

  /** The anchor stands in the echo, or behind it: it is one word. */
  lemma AnchorSide(s: string, w: string, k: nat, anchor: string)
    requires At(s, k, anchor) && |w| < |s| && s[|w|] == '\n' && '\n' !in anchor
    ensures k + |anchor| <= |w| || k > |w|
  {
    AtPointwise(s, k, anchor);
    forall q | k <= q < k + |anchor| ensures s[q] != '\n' {
      assert s[k + (q - k)] == anchor[q - k];
    }
  }

  /** The first line of a text: it is the whole text, or a newline follows. */
  lemma FirstLineOf(w: string) returns (n: nat)
    ensures n <= |w| && '\n' !in w[..n] && (n < |w| ==> w[n] == '\n' && w == w[..n] + ("\n" + w[n + 1..]))
  {
    n := 0;
    while n < |w| && w[n] != '\n'
      invariant n <= |w| && '\n' !in w[..n]
    {
      n := n + 1;
    }
  }

  lemma AnchorInLine(line: string, w: string, anchor: string)
    requires line <= w && At(w, 0, anchor) && '\n' !in anchor && (line == w || w[|line|] == '\n')
    ensures Contains(line, anchor)
  {
    assert w[0..|anchor|] == anchor;
    forall q | 0 <= q < |anchor| ensures w[q] != '\n' {
      assert w[q] == anchor[q];
    }
    assert line[0..|anchor|] == w[0..|anchor|];
    assert At(line, 0, anchor);
  }

  /** What is left of an answer whose anchor is found in the echo: the response, with
      the lines of the echo behind the anchor's in front of it, if there are any. */
  lemma ResponseInEcho(w: string, body: string, anchor: string) returns (n: nat, last: bool)
    requires '\n' !in anchor && Contains(w + ("\n" + body), anchor)
    requires IndexOf(w + ("\n" + body), anchor) + |anchor| <= |w|
    ensures n <= |w|
    ensures Response(w + ("\n" + body), anchor) == TrimSpace(if last then body else w[n..] + ("\n" + body))
  {
    hide Response, TrimSpace;
    var shown := w + ("\n" + body);
    var k := IndexOf(shown, anchor);
    var v := w[k..];
    EchoTail(w, body, k, anchor);
    var m := FirstLineOf(v);
    AnchorInLine(v[..m], v, anchor);
    last := m == |v|;
    if last {
      n := 0;
      assert v[..m] == v;
      AnchorLineCleaned(shown, anchor, v, body);
    } else {
      n := k + m + 1;
      assert v[m + 1..] == w[n..];
      assert v + ("\n" + body) == v[..m] + ("\n" + (v[m + 1..] + ("\n" + body)));
      AnchorLineCleaned(shown, anchor, v[..m], w[n..] + ("\n" + body));
    }
  }

  lemma EchoTail(w: string, body: string, k: nat, anchor: string)
    requires k + |anchor| <= |w| && At(w + ("\n" + body), k, anchor)
    ensures (w + ("\n" + body))[k..] == w[k..] + ("\n" + body) && At(w[k..], 0, anchor)
  {
    var shown := w + ("\n" + body);
    assert shown[k..k + |anchor|] == w[k..k + |anchor|] == w[k..][0..|anchor|];
  }

  /** An occurrence behind the echo does not begin in white space. */
  lemma NotInSpaces(shown: string, m: nat, lead: string, k: nat, anchor: string)
    requires At(shown, k, anchor) && anchor != "" && !IsSpace(anchor[0]) && k >= m
    requires |shown| >= m + |lead| && forall i :: 0 <= i < |lead| ==> IsSpace(lead[i])
    requires shown[m..m + |lead|] == lead
    ensures k >= m + |lead|
  {
    AtPointwise(shown, k, anchor);
    assert shown[k] == anchor[0];
    forall q | m <= q < m + |lead| ensures IsSpace(shown[q]) {
      assert shown[q] == shown[m..m + |lead|][q - m];
    }
  }

  /** What is left of an answer whose anchor is only found behind the echo: what
      follows the header, which holds it. */
  lemma ResponseInHeader(shown: string, w: string, lead: string, head: string, rest: string, anchor: string)
    requires '\n' !in head && Contains(head, anchor) && '\n' !in anchor
    requires anchor != "" && !IsSpace(anchor[0]) && forall i :: 0 <= i < |lead| ==> IsSpace(lead[i])
    requires shown == w + ("\n" + (lead + (head + ("\n" + rest))))
    requires Contains(shown, anchor) && IndexOf(shown, anchor) > |w|
    ensures Response(shown, anchor) == TrimSpace(rest)
  {
    hide Response, TrimSpace, IsSpace, IndexOf;
    var k, m := IndexOf(shown, anchor), |w| + 1;
    HeaderPlace(shown, w, lead, head, rest, anchor);
    NotInSpaces(shown, m, lead, k, anchor);
    var j := k - m - |lead|;
    var line := head[j..];
    HeaderTail(shown, w, lead, head, rest, j);
    assert shown[k..][0..|anchor|] == shown[k..k + |anchor|];
    AnchorInLine(line, shown[k..], anchor);
    AnchorLineCleaned(shown, anchor, line, rest);
  }

  lemma HeaderTail(shown: string, w: string, lead: string, head: string, rest: string, j: nat)
    requires shown == w + ("\n" + (lead + (head + ("\n" + rest)))) && j <= |head|
    ensures shown[|w| + 1 + |lead| + j..] == head[j..] + ("\n" + rest)
  {
    var a := w + ("\n" + lead);
    assert shown == a + (head + ("\n" + rest));
    assert shown[|a|..] == head + ("\n" + rest);
    assert shown[|a| + j..] == shown[|a|..][j..];
  }

  /** The anchor stands in the header, so its first occurrence is not later. */
  lemma HeaderPlace(shown: string, w: string, lead: string, head: string, rest: string, anchor: string)
    requires shown == w + ("\n" + (lead + (head + ("\n" + rest)))) && Contains(head, anchor)
    ensures shown[|w| + 1..|w| + 1 + |lead|] == lead
    ensures 0 <= IndexOf(shown, anchor) <= |w| + 1 + |lead| + IndexOf(head, anchor)
  {
    var a, i := w + ("\n" + lead), IndexOf(head, anchor);
    assert shown == a + (head + ("\n" + rest));
    assert (head + ("\n" + rest))[i..i + |anchor|] == head[i..i + |anchor|];
    AtBehind(a, head + ("\n" + rest), i, anchor);
    assert At(shown, |a| + i, anchor);
  }
}
