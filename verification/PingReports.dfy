/** What a router prints for a ping run, and that the parser inverts it: reports of
    both families, with replies, losses and replies that are damaged or cut off. */
module PingReports {
  import opened Machine
  import opened Wrappers
  import opened Text
  import opened Huawei
  import opened PingOutput

  // ---- A printer of router output ------------------------------------------

  /** What a router writes between the command echo and its statistics: replies,
      lost requests, broken reply lines, and any other text (headers, addresses,
      blank lines). `v6` selects the IPv6 wording of a reply. */
  datatype Entry =
    | Answered(lead: string, v6: bool, seqNo: nat, ttl: nat, ms: nat)
    | TimedOut(lead: string)
    | Broken(text: string)
    | Other(text: string)

  /** No match can begin in text without these characters. */
  predicate Plain(s: string) { 'q' !in s && '(' !in s }

  /** Whatever line end follows it, `text` contributes no reply and no timeout. */
  ghost predicate Silent(text: string) {
    forall rest: string | rest != "" && (rest[0] == '\n' || rest[0] == '\r') ::
      FindReplies(text + rest) == FindReplies(rest) && CountTimeouts(text + rest) == CountTimeouts(rest)
  }

  /** A match that a line end interrupts goes on with one of these. */
  predicate IsContinuation(c: char) { IsDigit(c) || c == 't' || c == 'h' || c == '=' || c == 'm' }

  /** A line end, and then nothing that could complete a reply begun before it. */
  predicate Fresh(rest: string) {
    && rest != "" && (rest[0] == '\n' || rest[0] == '\r')
    && (SkipSpaces(rest) == "" || !IsContinuation(SkipSpaces(rest)[0]))
  }

  /** In front of a fresh line, `text` contributes no reply and no timeout: nothing
      in it matches. */
  ghost predicate Matchless(text: string) {
    forall rest: string | Fresh(rest) ::
      FindReplies(text + rest) == FindReplies(rest) && CountTimeouts(text + rest) == CountTimeouts(rest)
  }

  ghost predicate WellFormed(e: Entry) {
    match e
    case Answered(lead, _, seqNo, ttl, ms) =>
      Plain(lead) && seqNo <= MAX_INT64 && ttl <= MAX_INT64 && ms <= MAX_INT64
    case TimedOut(lead) => Plain(lead)
    case Broken(text) => '(' !in text && Matchless(text)
    case Other(text) => '(' !in text && Silent(text)
  }

  function TimeText(ms: nat, rest: string): string { "time=" + (NatText(ms) + (" ms" + rest)) }

  function TtlText(v6: bool, ttl: nat, rest: string): string {
    (if v6 then "hop limit=" else "ttl=") + (NatText(ttl) + (" " + rest))
  }

  function SequenceText(seqNo: nat, rest: string): (s: string)
    ensures |s| > 1 && s[0] == 'S' && s[1] == 'e'
  {
    "Sequence=" + (NatText(seqNo) + (" " + rest))
  }

  /** For example `Sequence=1 ttl=59 time=24 ms`, followed by `rest`. */
  function ReplyText(v6: bool, seqNo: nat, ttl: nat, ms: nat, rest: string): string {
    SequenceText(seqNo, TtlText(v6, ttl, TimeText(ms, rest)))
  }

  /** The text of an entry, its line end and the rest of the output. */
  function Line(e: Entry, rest: string): string {
    match e
    case Answered(lead, v6, seqNo, ttl, ms) => lead + ReplyText(v6, seqNo, ttl, ms, rest)
    case TimedOut(lead) => lead + (REQUEST_TIME_OUT + rest)
    case Broken(text) => text + rest
    case Other(text) => text + rest
  }

  predicate IsEol(eol: string) { eol == "\n" || eol == "\r\n" }

  function Lines(es: seq<Entry>, eol: string, rest: string): string {
    if es == [] then rest else Line(es[0], eol + Lines(es[1..], eol, rest))
  }

  /** A broken line is followed by a fresh one. */
  ghost predicate Placed(es: seq<Entry>, eol: string, rest: string) {
    es != [] ==> (es[0].Broken? ==> Fresh(eol + Lines(es[1..], eol, rest))) && Placed(es[1..], eol, rest)
  }

  function CountedTail(word: string, rest: string): (s: string)
    ensures s != "" && !IsDigit(s[0])
  {
    " packet(s) " + (word + rest)
  }

  function CountText(n: nat, word: string, rest: string): string {
    NatText(n) + CountedTail(word, rest)
  }

  /** The statistics block; `footer` is what follows the received count. */
  function Statistics(sent: nat, received: nat, eol: string, footer: string): string {
    "    " + CountText(sent, "transmitted", eol + ("    " + CountText(received, "received", footer)))
  }

  function Print(es: seq<Entry>, sent: nat, received: nat, eol: string, footer: string): string {
    Lines(es, eol, Statistics(sent, received, eol, footer))
  }

  function EntryReplies(e: Entry): seq<Reply> {
    if e.Answered? then [Reply(e.seqNo, Millis(e.ms), e.ttl)] else []
  }

  function EntryTimeouts(e: Entry): nat { if e.TimedOut? then 1 else 0 }

  /** The replies and the number of lost requests a run reports. */
  function RepliesOf(es: seq<Entry>): seq<Reply> {
    if es == [] then [] else EntryReplies(es[0]) + RepliesOf(es[1..])
  }

  function TimeoutsOf(es: seq<Entry>): nat {
    if es == [] then 0 else EntryTimeouts(es[0]) + TimeoutsOf(es[1..])
  }

  // ---- Scanning a printed reply --------------------------------------------

  lemma ExpectPrefix(lit: string, rest: string)
    ensures Expect(lit, lit + rest) == Some(rest)
  {
    assert (lit + rest)[|lit|..] == rest;
  }

  lemma DigitRunUnique(s: string, n: nat)
    requires n <= |s| && AllDigits(s[..n]) && (n < |s| ==> !IsDigit(s[n]))
    ensures DigitRun(s) == n
  {
    if n > 0 {
      assert s[..n][0] == s[0];
      assert s[1..][..n - 1] == s[..n][1..];
      DigitRunUnique(s[1..], n - 1);
    }
  }

  lemma NumberOfText(n: nat, rest: string)
    requires n <= MAX_INT64
    requires rest != "" && !IsDigit(rest[0])
    ensures Number(NatText(n) + rest) == Some((n, rest))
  {
    var s := NatText(n) + rest;
    assert s[..|NatText(n)|] == NatText(n);
    assert s[|NatText(n)|..] == rest;
    DigitRunUnique(s, |NatText(n)|);
    NatTextRoundTrip(n);
  }

  lemma OneSpace(rest: string)
    requires rest != "" && !IsReSpace(rest[0])
    ensures SpaceRun(" " + rest) == 1
    ensures Spaces(" " + rest) == Some(rest)
    ensures SkipSpaces(" " + rest) == rest
  {
    assert (" " + rest)[1..] == rest;
  }

  lemma NoSpace(s: string)
    requires s != "" && !IsReSpace(s[0])
    ensures SkipSpaces(s) == s
  {}

  lemma ScanTime(ms: nat, rest: string)
    requires ms <= MAX_INT64
    ensures MatchTime(TimeText(ms, rest)) == Some((ms, rest))
  {
    var s2 := NatText(ms) + (" ms" + rest);
    assert TimeText(ms, rest) == "time" + ("=" + s2);
    ExpectPrefix("time", "=" + s2);
    NoSpace("=" + s2);
    ExpectPrefix("=", s2);
    assert s2[0] == NatText(ms)[0];
    NoSpace(s2);
    assert " ms" + rest == " " + ("ms" + rest);
    NumberOfText(ms, " ms" + rest);
    OneSpace("ms" + rest);
    ExpectPrefix("ms", rest);
  }

  lemma ScanTtl(v6: bool, ttl: nat, rest: string)
    requires ttl <= MAX_INT64
    ensures MatchTtl(TtlText(v6, ttl, rest)) == Some((ttl, " " + rest))
  {
    var s := NatText(ttl) + (" " + rest);
    ExpectPrefix(if v6 then "hop limit=" else "ttl=", s);
    assert ("hop limit=" + s)[0] == 'h';
    assert ("ttl=" + s)[..3] == "ttl";
    NumberOfText(ttl, " " + rest);
  }

  lemma ScanTtlAndTime(v6: bool, ttl: nat, ms: nat, rest: string)
    requires ttl <= MAX_INT64 && ms <= MAX_INT64
    ensures MatchTtlAndTime(TtlText(v6, ttl, TimeText(ms, rest))) == Some((ttl, ms, rest))
  {
    var time := TimeText(ms, rest);
    assert time[0] == 't';
    OneSpace(time);
    ScanTtl(v6, ttl, time);
    ScanTime(ms, rest);
  }

  lemma ScanReplyText(v6: bool, seqNo: nat, ttl: nat, ms: nat, rest: string)
    requires seqNo <= MAX_INT64 && ttl <= MAX_INT64 && ms <= MAX_INT64
    ensures MatchReply(ReplyText(v6, seqNo, ttl, ms, rest)) == Some((Reply(seqNo, Millis(ms), ttl), rest))
  {
    var s3 := TtlText(v6, ttl, TimeText(ms, rest));
    assert !IsReSpace(s3[0]);
    ExpectPrefix("Sequence=", NatText(seqNo) + (" " + s3));
    NumberOfText(seqNo, " " + s3);
    OneSpace(s3);
    ScanTtlAndTime(v6, ttl, ms, rest);
  }

  // ---- Text in which no match begins ---------------------------------------

  /** "Sequence=" and "Request time out" both have a q as their third letter. */
  lemma {:induction false} SkipPlain(a: string, b: string)
    requires 'q' !in a
    requires (|b| > 0 ==> b[0] != 'q') && (|b| > 1 ==> b[1] != 'q')
    ensures FindReplies(a + b) == FindReplies(b)
    ensures CountTimeouts(a + b) == CountTimeouts(b)
  {
    if a == "" {
      assert a + b == b;
    } else {
      assert |a + b| > 2 ==> (a + b)[2] != 'q';
      assert (a + b)[1..] == a[1..] + b;
      assert "Sequence="[2] == 'q' && REQUEST_TIME_OUT[2] == 'q';
      SkipPlain(a[1..], b);
    }
  }

  lemma {:induction false} SkipNoS(a: string, b: string)
    requires 'S' !in a
    ensures FindReplies(a + b) == FindReplies(b)
  {
    if a == "" {
      assert a + b == b;
    } else {
      assert (a + b)[0] == a[0] && (a + b)[1..] == a[1..] + b;
      SkipNoS(a[1..], b);
    }
  }

  lemma {:induction false} SkipNoR(a: string, b: string)
    requires 'R' !in a
    ensures CountTimeouts(a + b) == CountTimeouts(b)
  {
    if a == "" {
      assert a + b == b;
    } else {
      assert (a + b)[0] == a[0] && (a + b)[1..] == a[1..] + b;
      assert REQUEST_TIME_OUT[0] == 'R';
      SkipNoR(a[1..], b);
    }
  }

  lemma {:induction false} SkipNoDigit(a: string, b: string, word: string)
    requires forall i :: 0 <= i < |a| ==> !IsDigit(a[i])
    ensures FindCount(a + b, word) == FindCount(b, word)
  {
    if a == "" {
      assert a + b == b;
    } else {
      assert (a + b)[0] == a[0] && (a + b)[1..] == a[1..] + b;
      SkipNoDigit(a[1..], b, word);
    }
  }

  lemma DigitsOnly(n: nat, c: char)
    requires !IsDigit(c)
    ensures c !in NatText(n)
  {}

  lemma TimeTextSilent(ms: nat, rest: string)
    ensures FindReplies(TimeText(ms, rest)) == FindReplies(rest)
    ensures CountTimeouts(TimeText(ms, rest)) == CountTimeouts(rest)
  {
    hide FindReplies, CountTimeouts;
    DigitsOnly(ms, 'S');
    DigitsOnly(ms, 'R');
    SkipNoS("time=", NatText(ms) + (" ms" + rest));
    SkipNoS(NatText(ms), " ms" + rest);
    SkipNoS(" ms", rest);
    SkipNoR("time=", NatText(ms) + (" ms" + rest));
    SkipNoR(NatText(ms), " ms" + rest);
    SkipNoR(" ms", rest);
  }

  lemma TtlTextSilent(v6: bool, ttl: nat, rest: string)
    ensures FindReplies(TtlText(v6, ttl, rest)) == FindReplies(rest)
    ensures CountTimeouts(TtlText(v6, ttl, rest)) == CountTimeouts(rest)
  {
    hide FindReplies, CountTimeouts;
    var word := if v6 then "hop limit=" else "ttl=";
    DigitsOnly(ttl, 'S');
    DigitsOnly(ttl, 'R');
    SkipNoS(word, NatText(ttl) + (" " + rest));
    SkipNoS(NatText(ttl), " " + rest);
    SkipNoS(" ", rest);
    SkipNoR(word, NatText(ttl) + (" " + rest));
    SkipNoR(NatText(ttl), " " + rest);
    SkipNoR(" ", rest);
  }

  lemma SequenceTextNoTimeout(seqNo: nat, rest: string)
    ensures CountTimeouts(SequenceText(seqNo, rest)) == CountTimeouts(rest)
  {
    hide FindReplies, CountTimeouts;
    DigitsOnly(seqNo, 'R');
    SkipNoR("Sequence=", NatText(seqNo) + (" " + rest));
    SkipNoR(NatText(seqNo), " " + rest);
    SkipNoR(" ", rest);
  }

  lemma FoundReply(s: string, reply: Reply, rest: string)
    requires MatchReply(s) == Some((reply, rest))
    ensures FindReplies(s) == [reply] + FindReplies(rest)
  {}

  lemma NothingInEmpty()
    ensures FindReplies("") == [] && CountTimeouts("") == 0
  {}

  /** A reply line yields its reply and nothing else. */
  lemma AnsweredScan(lead: string, v6: bool, seqNo: nat, ttl: nat, ms: nat, rest: string)
    requires Plain(lead) && seqNo <= MAX_INT64 && ttl <= MAX_INT64 && ms <= MAX_INT64
    ensures FindReplies(lead + ReplyText(v6, seqNo, ttl, ms, rest))
         == [Reply(seqNo, Millis(ms), ttl)] + FindReplies(rest)
    ensures CountTimeouts(lead + ReplyText(v6, seqNo, ttl, ms, rest)) == CountTimeouts(rest)
  {
    hide FindReplies, CountTimeouts;
    var text := ReplyText(v6, seqNo, ttl, ms, rest);
    assert text[0] == 'S' && text[1] == 'e';
    SkipPlain(lead, text);
    ScanReplyText(v6, seqNo, ttl, ms, rest);
    FoundReply(text, Reply(seqNo, Millis(ms), ttl), rest);
    SequenceTextNoTimeout(seqNo, TtlText(v6, ttl, TimeText(ms, rest)));
    TtlTextSilent(v6, ttl, TimeText(ms, rest));
    TimeTextSilent(ms, rest);
  }

  lemma TimedOutScan(lead: string, rest: string)
    requires Plain(lead)
    ensures FindReplies(lead + (REQUEST_TIME_OUT + rest)) == FindReplies(rest)
    ensures CountTimeouts(lead + (REQUEST_TIME_OUT + rest)) == 1 + CountTimeouts(rest)
  {
    var text := REQUEST_TIME_OUT + rest;
    assert text[0] == 'R' && text[1] == 'e';
    SkipPlain(lead, text);
    SkipNoS(REQUEST_TIME_OUT, rest);
    assert text[|REQUEST_TIME_OUT|..] == rest;
  }

  /** One of the first three letters is wrong: no match begins here. */
  lemma NoMatchBegins(s: string, k: nat)
    requires k < 3 && k < |s| && s[k] != "Seq"[k] && s[k] != "Req"[k]
    ensures MatchReply(s).None? && !(REQUEST_TIME_OUT <= s)
    ensures FindReplies(s) == FindReplies(s[1..]) && CountTimeouts(s) == CountTimeouts(s[1..])
  {
    assert "Sequence="[k] == "Seq"[k] && REQUEST_TIME_OUT[k] == "Req"[k];
  }

  /** Text without a q is silent: headers, addresses, blank lines. */
  lemma {:induction false} PlainIsSilent(text: string)
    requires 'q' !in text
    ensures Silent(text)
  {
    forall rest: string | rest != "" && (rest[0] == '\n' || rest[0] == '\r')
      ensures FindReplies(text + rest) == FindReplies(rest)
      ensures CountTimeouts(text + rest) == CountTimeouts(rest)
    {
      if text == "" {
        assert text + rest == rest;
      } else {
        PlainIsSilent(text[1..]);
        NoMatchBegins(text + rest, if |text| < 2 then |text| else 2);
        assert (text + rest)[1..] == text[1..] + rest;
      }
    }
  }

  /** A reply whose time does not read `= <ms>` contributes nothing: it is lost
      to the parser, and only the received count can reveal it. */
  lemma DamagedReplyIsSilent(lead: string, v6: bool, seqNo: nat, ttl: nat, junk: string)
    requires Plain(lead) && seqNo <= MAX_INT64 && ttl <= MAX_INT64
    requires junk != "" && !IsReSpace(junk[0]) && junk[0] != '=' && 'S' !in junk && 'R' !in junk
    ensures Matchless(lead + SequenceText(seqNo, TtlText(v6, ttl, "time" + junk)))
  {
    hide FindReplies, CountTimeouts;
    var text := lead + SequenceText(seqNo, TtlText(v6, ttl, "time" + junk));
    forall rest: string | Fresh(rest)
      ensures FindReplies(text + rest) == FindReplies(rest)
      ensures CountTimeouts(text + rest) == CountTimeouts(rest)
    {
      var s3 := TtlText(v6, ttl, "time" + (junk + rest));
      DamagedAssociates(lead, v6, seqNo, ttl, junk, rest);
      DamagedTimeFails(v6, seqNo, ttl, junk, rest);
      SequenceAlone(lead, seqNo, s3);
      TtlTextSilent(v6, ttl, "time" + (junk + rest));
      SkipNoR("time", junk + rest);
      SkipNoR(junk, rest);
      SkipNoS("time", junk + rest);
      SkipNoS(junk, rest);
    }
  }

  /** A `Sequence=` that starts no match is skipped like any other text. */
  lemma SequenceAlone(lead: string, seqNo: nat, s3: string)
    requires Plain(lead)
    requires MatchReply(SequenceText(seqNo, s3)).None?
    ensures FindReplies(lead + SequenceText(seqNo, s3)) == FindReplies(s3)
    ensures CountTimeouts(lead + SequenceText(seqNo, s3)) == CountTimeouts(s3)
  {
    hide FindReplies, CountTimeouts;
    var s := SequenceText(seqNo, s3);
    SkipLead(lead, s);
    SequenceTextNoTimeout(seqNo, s3);
    FailedSequenceReplies(seqNo, s3);
  }

  lemma SkipLead(lead: string, s: string)
    requires Plain(lead) && |s| > 1 && s[0] == 'S' && s[1] == 'e'
    ensures FindReplies(lead + s) == FindReplies(s) && CountTimeouts(lead + s) == CountTimeouts(s)
  {
    SkipPlain(lead, s);
  }

  lemma FailedSequenceReplies(seqNo: nat, s3: string)
    requires MatchReply(SequenceText(seqNo, s3)).None?
    ensures FindReplies(SequenceText(seqNo, s3)) == FindReplies(s3)
  {
    NoMatchHere(SequenceText(seqNo, s3));
    AfterFirstLetter(seqNo, s3);
  }

  lemma NoMatchHere(s: string)
    requires s != "" && MatchReply(s).None?
    ensures FindReplies(s) == FindReplies(s[1..])
  {}

  lemma AfterFirstLetter(seqNo: nat, s3: string)
    ensures FindReplies(SequenceText(seqNo, s3)[1..]) == FindReplies(s3)
  {
    hide FindReplies, CountTimeouts;
    DigitsOnly(seqNo, 'S');
    assert SequenceText(seqNo, s3)[1..] == "equence=" + (NatText(seqNo) + (" " + s3));
    SkipThreeNoS("equence=", NatText(seqNo), " ", s3);
  }

  lemma SkipThreeNoS(a: string, b: string, c: string, rest: string)
    requires 'S' !in a && 'S' !in b && 'S' !in c
    ensures FindReplies(a + (b + (c + rest))) == FindReplies(rest)
  {
    hide FindReplies, CountTimeouts;
    SkipNoS(a, b + (c + rest));
    SkipNoS(b, c + rest);
    SkipNoS(c, rest);
  }

  lemma DamagedAssociates(lead: string, v6: bool, seqNo: nat, ttl: nat, junk: string, rest: string)
    ensures (lead + SequenceText(seqNo, TtlText(v6, ttl, "time" + junk))) + rest
         == lead + SequenceText(seqNo, TtlText(v6, ttl, "time" + (junk + rest)))
  {
    var word := if v6 then "hop limit=" else "ttl=";
    assert ("time" + junk) + rest == "time" + (junk + rest);
    TtlTextAppend(v6, ttl, "time" + junk, rest);
    var a, b := TtlText(v6, ttl, "time" + junk), NatText(seqNo);
    assert (b + (" " + a)) + rest == b + (" " + (a + rest));
    assert (lead + ("Sequence=" + (b + (" " + a)))) + rest == lead + ("Sequence=" + ((b + (" " + a)) + rest));
  }

  lemma DamagedTimeFails(v6: bool, seqNo: nat, ttl: nat, junk: string, rest: string)
    requires seqNo <= MAX_INT64 && ttl <= MAX_INT64
    requires junk != "" && !IsReSpace(junk[0]) && junk[0] != '='
    ensures MatchReply(SequenceText(seqNo, TtlText(v6, ttl, "time" + (junk + rest)))).None?
  {
    var time := "time" + (junk + rest);
    var s3 := TtlText(v6, ttl, time);
    assert s3[0] == 't' || s3[0] == 'h';
    assert time[0] == 't';
    ExpectPrefix("Sequence=", NatText(seqNo) + (" " + s3));
    NumberOfText(seqNo, " " + s3);
    OneSpace(s3);
    ScanTtl(v6, ttl, time);
    OneSpace(time);
    ExpectPrefix("time", junk + rest);
    NoSpace(junk + rest);
  }

  // ---- Replies that are cut off --------------------------------------------

  lemma PrefixSplit(p: string, a: string, b: string)
    requires p <= a + b
    ensures p <= a || (|p| > |a| && p == a + p[|a|..] && p[|a|..] <= b)
  {
    if |p| <= |a| {
      assert p == (a + b)[..|p|] == a[..|p|];
    } else {
      assert p[..|a|] == (a + b)[..|p|][..|a|] == a;
      assert p[|a|..] == (a + b)[..|p|][|a|..] == b[..|p| - |a|];
    }
  }

  lemma LiteralCut(lit: string, p: string, rest: string)
    requires p <= lit && |p| < |lit| && rest != "" && rest[0] !in lit
    ensures !(lit <= p + rest)
  {
    assert (p + rest)[|p|] == rest[0];
    assert lit[|p|] in lit;
  }

  /** A number cut off, or followed by a space and part of what comes next. */
  lemma NumberCut(n: nat, tail: string, p: string, rest: string)
    requires p != "" && p <= NatText(n) + (" " + tail) && Fresh(rest)
    ensures |p| <= |NatText(n)| || p == NatText(n) + (" " + p[|NatText(n)| + 1..])
    ensures |p| > |NatText(n)| ==> p[|NatText(n)| + 1..] <= tail
    ensures Number(p + rest).Some?
    ensures Number(p + rest).value.1 == if |p| <= |NatText(n)| then rest else " " + (p[|NatText(n)| + 1..] + rest)
  {
    hide SkipSpaces, IsContinuation;
    var digits := NatText(n);
    PrefixSplit(p, digits, " " + tail);
    if |p| <= |digits| {
      assert forall i :: 0 <= i < |p| ==> p[i] == digits[i] && IsDigit(digits[i]);
      NumberEnds(p, rest);
    } else {
      var more := p[|digits|..];
      PrefixSplit(more, " ", tail);
      assert more[0] == ' ';
      assert p + rest == digits + (more + rest);
      assert more == " " + more[1..] && more[1..] == p[|digits| + 1..];
      NumberEnds(digits, more + rest);
      assert more + rest == " " + (more[1..] + rest);
    }
  }

  lemma NumberEnds(digits: string, rest: string)
    requires digits != "" && AllDigits(digits) && rest != "" && !IsDigit(rest[0])
    ensures Number(digits + rest).Some? && Number(digits + rest).value.1 == rest
  {
    var s := digits + rest;
    assert s[|digits|..] == rest && s[..|digits|] == digits;
    DigitRunUnique(s, |digits|);
  }

  lemma SpacesFresh(rest: string)
    requires Fresh(rest)
    ensures Spaces(rest) == Some(SkipSpaces(rest))
  {}

  lemma OneSpaceFresh(p: string, rest: string)
    requires Fresh(rest) && (p != "" ==> !IsReSpace(p[0]))
    ensures Spaces(" " + (p + rest)) == Some(if p == "" then SkipSpaces(rest) else p + rest)
  {
    var s := " " + (p + rest);
    SpaceRunOfSpaces(" ", p + rest);
    assert SpaceRun(s) > 0;
    if p == "" {
      assert p + rest == rest;
    }
  }

  lemma InkWrong(rest: string)
    requires Fresh(rest)
    ensures MatchTime(SkipSpaces(rest)).None? && MatchTtlAndTime(SkipSpaces(rest)).None?
    ensures Number(SkipSpaces(rest)).None?
    ensures Expect("=", SkipSpaces(rest)).None? && Expect("ms", SkipSpaces(rest)).None?
  {}

  function MsText(ms: nat): string { NatText(ms) + (" " + "ms") }

  lemma MsCut(ms: nat, p: string, rest: string)
    requires p <= MsText(ms) && |p| < |MsText(ms)| && Fresh(rest)
    ensures MatchTime("time=" + (p + rest)).None?
  {
    hide Number, SkipSpaces, Fresh;
    ExpectPrefix("time", "=" + (p + rest));
    assert "time=" + (p + rest) == "time" + ("=" + (p + rest));
    EqualsStands(p + rest);
    ExpectPrefix("=", p + rest);
    InkWrong(rest);
    if p == "" {
      assert p + rest == rest;
    } else {
      DigitStands(ms, p, rest);
      NumberCut(ms, "ms", p, rest);
      if |p| > |NatText(ms)| {
        var more := p[|NatText(ms)| + 1..];
        MsLetters(more, rest);
      }
    }
  }

  lemma EqualsStands(rest: string)
    ensures SkipSpaces("=" + rest) == "=" + rest
  {
    assert SpaceRun("=" + rest) == 0;
  }

  lemma DigitStands(n: nat, p: string, rest: string)
    requires p != "" && p <= NatText(n) + (" " + "ms")
    ensures SkipSpaces(p + rest) == p + rest
  {
    assert p[0] == NatText(n)[0];
  }

  lemma MsLetters(more: string, rest: string)
    requires more <= "ms" && |more| < 2 && Fresh(rest)
    ensures Expect("ms", SkipSpaces(" " + (more + rest))).None?
  {
    SpaceRunOfSpaces(" ", more + rest);
    if more == "" {
      assert more + rest == rest;
    } else {
      LiteralCut("ms", more, rest);
      assert SpaceRun(more + rest) == 0;
    }
  }

  lemma TimeCut(ms: nat, p: string, rest: string)
    requires p != "" && p <= "time=" + MsText(ms) && |p| < |"time=" + MsText(ms)| && Fresh(rest)
    ensures MatchTime(p + rest).None?
  {
    hide Number, SkipSpaces, Fresh, MsText;
    FreshStart(rest);
    PrefixSplit(p, "time=", MsText(ms));
    if |p| < 4 {
      assert p <= "time";
      LiteralCut("time", p, rest);
    } else if |p| == 4 {
      assert p == "time";
      ExpectPrefix("time", rest);
      InkWrong(rest);
    } else {
      var more := p[5..];
      assert p == "time=" + more && p + rest == "time=" + (more + rest);
      MsCut(ms, more, rest);
    }
  }

  lemma FreshStart(rest: string)
    requires Fresh(rest)
    ensures rest != "" && (rest[0] == '\n' || rest[0] == '\r')
  {}

  function TtlWord(v6: bool): string { if v6 then "hop limit=" else "ttl=" }

  function DataText(v6: bool, ttl: nat, ms: nat): string { TtlWord(v6)
      + (NatText(ttl) + (" " + ("time=" + MsText(ms)))) }

  lemma TtlWordCut(v6: bool, p: string, rest: string)
    requires p <= TtlWord(v6) && |p| < |TtlWord(v6)| && rest != "" && (rest[0] == '\n' || rest[0] == '\r')
    ensures MatchTtl(p + rest).None?
  {
    LiteralCut(TtlWord(v6), p, rest);
    if v6 {
      assert !("ttl" <= p + rest) by {
        assert (p + rest)[0] == if p == "" then rest[0] else 'h';
      }
    } else {
      assert !("hop limit=" <= p + rest) by {
        assert (p + rest)[0] == if p == "" then rest[0] else 't';
      }
    }
  }

  lemma TtlRead(v6: bool, s: string)
    ensures MatchTtl(TtlWord(v6) + s) == Number(s)
  {
    var t := TtlWord(v6) + s;
    ExpectPrefix(TtlWord(v6), s);
    if v6 {
      assert t[0] == 'h';
    } else {
      assert t == "ttl" + ("=" + s);
    }
  }

  lemma DataCut(v6: bool, ttl: nat, ms: nat, p: string, rest: string)
    requires p <= DataText(v6, ttl, ms) && |p| < |DataText(v6, ttl, ms)| && Fresh(rest)
    ensures MatchTtlAndTime(p + rest).None?
  {
    hide Number, MatchTtl, MatchTime, Spaces, SkipSpaces, Fresh, MsText, TtlWord;
    FreshStart(rest);
    var word, time := TtlWord(v6), "time=" + MsText(ms);
    PrefixSplit(p, word, NatText(ttl) + (" " + time));
    if |p| < |word| {
      TtlWordCut(v6, p, rest);
    } else {
      var more := p[|word|..];
      assert p + rest == word + (more + rest);
      TtlRead(v6, more + rest);
      TtlNumberCut(ttl, time, ms, more, rest);
    }
  }

  lemma TtlNumberCut(ttl: nat, time: string, ms: nat, more: string, rest: string)
    requires time == "time=" + MsText(ms) && Fresh(rest)
    requires more <= NatText(ttl) + (" " + time) && |more| < |NatText(ttl) + (" " + time)|
    ensures Number(more + rest).None? || Spaces(Number(more + rest).value.1).None?
         || MatchTime(Spaces(Number(more + rest).value.1).value).None?
  {
    hide Number, MatchTime, Spaces, SkipSpaces, Fresh, MsText;
    FreshStart(rest);
    InkWrong(rest);
    SpacesFresh(rest);
    if more == "" {
      assert more + rest == rest;
      NoNumber(rest);
    } else {
      NumberCut(ttl, time, more, rest);
      if |more| > |NatText(ttl)| {
        var p := more[|NatText(ttl)| + 1..];
        assert p != "" ==> p[0] == time[0] == 't';
        OneSpaceFresh(p, rest);
        if p != "" {
          TimeCut(ms, p, rest);
        }
      }
    }
  }

  lemma NoNumber(s: string)
    requires s != "" && !IsDigit(s[0])
    ensures Number(s).None?
  {}

  function ReplyLine(v6: bool, seqNo: nat, ttl: nat, ms: nat): string {
    "Sequence=" + (NatText(seqNo) + (" " + DataText(v6, ttl, ms)))
  }

  /** A reply cut off before its last letter does not match in front of a fresh line. */
  lemma ReplyCut(v6: bool, seqNo: nat, ttl: nat, ms: nat, p: string, rest: string)
    requires p <= ReplyLine(v6, seqNo, ttl, ms) && |p| < |ReplyLine(v6, seqNo, ttl, ms)| && Fresh(rest)
    ensures MatchReply(p + rest).None?
  {
    hide Number, MatchTtlAndTime, Spaces, SkipSpaces, Fresh, DataText;
    FreshStart(rest);
    InkWrong(rest);
    SpacesFresh(rest);
    var data := DataText(v6, ttl, ms);
    PrefixSplit(p, "Sequence=", NatText(seqNo) + (" " + data));
    if |p| < 9 {
      LiteralCut("Sequence=", p, rest);
    } else {
      var more := p[9..];
      assert p + rest == "Sequence=" + (more + rest);
      ExpectPrefix("Sequence=", more + rest);
      SequenceNumberCut(v6, seqNo, ttl, ms, more, rest);
    }
  }

  lemma SequenceNumberCut(v6: bool, seqNo: nat, ttl: nat, ms: nat, more: string, rest: string)
    requires Fresh(rest) && more <= NatText(seqNo) + (" " + DataText(v6, ttl, ms))
    requires |more| < |NatText(seqNo) + (" " + DataText(v6, ttl, ms))|
    ensures Number(more + rest).None? || Spaces(Number(more + rest).value.1).None?
         || MatchTtlAndTime(Spaces(Number(more + rest).value.1).value).None?
  {
    hide Number, MatchTtlAndTime, Spaces, SkipSpaces, Fresh, DataText;
    FreshStart(rest);
    InkWrong(rest);
    SpacesFresh(rest);
    if more == "" {
      assert more + rest == rest;
      NoNumber(rest);
    } else {
      NumberCut(seqNo, DataText(v6, ttl, ms), more, rest);
      if |more| > |NatText(seqNo)| {
        var q := more[|NatText(seqNo)| + 1..];
        DataStarts(v6, ttl, ms, q);
        OneSpaceFresh(q, rest);
        DataCut(v6, ttl, ms, q, rest);
      }
    }
  }

  lemma DataStarts(v6: bool, ttl: nat, ms: nat, q: string)
    requires q <= DataText(v6, ttl, ms)
    ensures q != "" ==> !IsReSpace(q[0])
  {
    var word := TtlWord(v6);
    assert word[0] == 't' || word[0] == 'h';
    assert DataText(v6, ttl, ms)[0] == word[0];
  }

  /** It is the text that the router prints. */
  lemma ReplyLineIsPrinted(v6: bool, seqNo: nat, ttl: nat, ms: nat)
    ensures ReplyText(v6, seqNo, ttl, ms, "") == ReplyLine(v6, seqNo, ttl, ms)
  {
    assert NatText(ms) + (" ms" + "") == MsText(ms);
  }

  predicate NoCapitals(s: string) { 'S' !in s && 'R' !in s }

  lemma CapitalsAppend(a: string, b: string)
    requires NoCapitals(a) && NoCapitals(b)
    ensures NoCapitals(a + b)
  {}

  lemma WordsHaveNoCapitals()
    ensures NoCapitals(" ") && NoCapitals("ms") && NoCapitals("time=") && NoCapitals("equence=")
    ensures NoCapitals(TtlWord(true)) && NoCapitals(TtlWord(false))
  {}

  lemma NumberHasNoCapitals(n: nat)
    ensures NoCapitals(NatText(n))
  {
    DigitsOnly(n, 'S');
    DigitsOnly(n, 'R');
  }

  lemma DataHasNoCapitals(v6: bool, ttl: nat, ms: nat)
    ensures NoCapitals(DataText(v6, ttl, ms))
  {
    hide NoCapitals, NatText, TtlWord;
    WordsHaveNoCapitals();
    NumberHasNoCapitals(ms);
    NumberHasNoCapitals(ttl);
    CapitalsAppend(" ", "ms");
    CapitalsAppend(NatText(ms), " " + "ms");
    var time := "time=" + MsText(ms);
    CapitalsAppend("time=", MsText(ms));
    CapitalsAppend(" ", time);
    CapitalsAppend(NatText(ttl), " " + time);
    CapitalsAppend(TtlWord(v6), NatText(ttl) + (" " + time));
  }

  lemma ReplyLineLetters(v6: bool, seqNo: nat, ttl: nat, ms: nat)
    ensures ReplyLine(v6, seqNo, ttl, ms)[0] == 'S' && ReplyLine(v6, seqNo, ttl, ms)[1] == 'e'
    ensures NoCapitals(ReplyLine(v6, seqNo, ttl, ms)[1..])
  {
    hide NoCapitals, NatText, DataText;
    var data := DataText(v6, ttl, ms);
    WordsHaveNoCapitals();
    NumberHasNoCapitals(seqNo);
    DataHasNoCapitals(v6, ttl, ms);
    CapitalsAppend(" ", data);
    CapitalsAppend(NatText(seqNo), " " + data);
    CapitalsAppend("equence=", NatText(seqNo) + (" " + data));
    assert ReplyLine(v6, seqNo, ttl, ms)[1..] == "equence=" + (NatText(seqNo) + (" " + data));
  }

  /** A reply line cut off anywhere before its end contributes nothing. */
  lemma CutReplyIsMatchless(lead: string, v6: bool, seqNo: nat, ttl: nat, ms: nat, text: string)
    requires Plain(lead) && text <= lead + ReplyText(v6, seqNo, ttl, ms, "")
    requires |text| < |lead + ReplyText(v6, seqNo, ttl, ms, "")|
    ensures Matchless(text)
  {
    ReplyLineIsPrinted(v6, seqNo, ttl, ms);
    CutLineIsMatchless(lead, v6, seqNo, ttl, ms, text);
  }

  lemma CutLineIsMatchless(lead: string, v6: bool, seqNo: nat, ttl: nat, ms: nat, text: string)
    requires Plain(lead) && text <= lead + ReplyLine(v6, seqNo, ttl, ms)
    requires |text| < |lead + ReplyLine(v6, seqNo, ttl, ms)|
    ensures Matchless(text)
  {
    hide FindReplies, CountTimeouts, ReplyLine, Plain;
    PrefixSplit(text, lead, ReplyLine(v6, seqNo, ttl, ms));
    if |text| <= |lead| {
      PlainPrefix(text, lead);
      PlainIsSilent(text);
    } else {
      var p := text[|lead|..];
      forall rest: string | Fresh(rest)
        ensures FindReplies(text + rest) == FindReplies(rest) && CountTimeouts(text + rest) == CountTimeouts(rest)
      {
        assert text + rest == lead + (p + rest);
        CutReplyScan(lead, v6, seqNo, ttl, ms, p, rest);
      }
    }
  }

  lemma PlainPrefix(p: string, s: string)
    requires p <= s && Plain(s)
    ensures 'q' !in p
  {}

  lemma CutReplyScan(lead: string, v6: bool, seqNo: nat, ttl: nat, ms: nat, p: string, rest: string)
    requires Plain(lead) && p != "" && p <= ReplyLine(v6, seqNo, ttl, ms) && |p| < |ReplyLine(v6, seqNo, ttl, ms)|
    requires Fresh(rest)
    ensures FindReplies(lead + (p + rest)) == FindReplies(rest)
    ensures CountTimeouts(lead + (p + rest)) == CountTimeouts(rest)
  {
    hide FindReplies, CountTimeouts, ReplyLine, MatchReply, Fresh;
    FreshStart(rest);
    ReplyLineLetters(v6, seqNo, ttl, ms);
    var line := ReplyLine(v6, seqNo, ttl, ms);
    assert p[0] == line[0] && (|p| > 1 ==> p[1] == line[1]);
    assert (p + rest)[1] == if |p| > 1 then 'e' else rest[0];
    SkipPlain(lead, p + rest);
    ReplyCut(v6, seqNo, ttl, ms, p, rest);
    NoMatchHere(p + rest);
    assert (p + rest)[1..] == p[1..] + rest;
    assert p[1..] <= line[1..];
    CapitalsPrefix(p[1..], line[1..]);
    SkipNoS(p[1..], rest);
    assert p == ['S'] + p[1..];
    SkipNoR(p, rest);
  }

  lemma CapitalsPrefix(p: string, s: string)
    requires p <= s && NoCapitals(s)
    ensures NoCapitals(p)
  {}

  // ---- Appending to a printed text -----------------------------------------

  lemma TimeTextAppend(ms: nat, a: string, b: string)
    ensures TimeText(ms, a) + b == TimeText(ms, a + b)
  {
    assert (" ms" + a) + b == " ms" + (a + b);
  }

  lemma TtlTextAppend(v6: bool, ttl: nat, a: string, b: string)
    ensures TtlText(v6, ttl, a) + b == TtlText(v6, ttl, a + b)
  {
    var word, n := if v6 then "hop limit=" else "ttl=", NatText(ttl);
    assert (n + (" " + a)) + b == n + (" " + (a + b));
    assert (word + (n + (" " + a))) + b == word + ((n + (" " + a)) + b);
  }

  lemma ReplyTextAppend(v6: bool, seqNo: nat, ttl: nat, ms: nat, a: string, b: string)
    ensures ReplyText(v6, seqNo, ttl, ms, a) + b == ReplyText(v6, seqNo, ttl, ms, a + b)
  {
    TimeTextAppend(ms, a, b);
    TtlTextAppend(v6, ttl, TimeText(ms, a), b);
    var t, n := TtlText(v6, ttl, TimeText(ms, a)), NatText(seqNo);
    assert (n + (" " + t)) + b == n + (" " + (t + b));
    assert ("Sequence=" + (n + (" " + t))) + b == "Sequence=" + ((n + (" " + t)) + b);
  }

  lemma LineAppend(e: Entry, a: string, b: string)
    ensures Line(e, a) + b == Line(e, a + b)
  {
    match e
    case Answered(lead, v6, seqNo, ttl, ms) =>
      ReplyTextAppend(v6, seqNo, ttl, ms, a, b);
      var t := ReplyText(v6, seqNo, ttl, ms, a);
      assert (lead + t) + b == lead + (t + b);
    case TimedOut(lead) =>
      assert (lead + (REQUEST_TIME_OUT + a)) + b == lead + (REQUEST_TIME_OUT + (a + b));
    case Broken(text) =>
      assert (text + a) + b == text + (a + b);
    case Other(text) =>
      assert (text + a) + b == text + (a + b);
  }

  lemma {:induction false} LinesAppend(es: seq<Entry>, eol: string, a: string, b: string)
    ensures Lines(es, eol, a) + b == Lines(es, eol, a + b)
  {
    if es != [] {
      var l := Lines(es[1..], eol, a);
      LinesAppend(es[1..], eol, a, b);
      LineAppend(es[0], eol + l, b);
      assert (eol + l) + b == eol + (l + b);
    }
  }

  // ---- What the entries contribute -----------------------------------------

  lemma LineScan(e: Entry, eol: string, rest: string)
    requires WellFormed(e) && IsEol(eol) && (e.Broken? ==> Fresh(eol + rest))
    ensures FindReplies(Line(e, eol + rest)) == EntryReplies(e) + FindReplies(rest)
    ensures CountTimeouts(Line(e, eol + rest)) == EntryTimeouts(e) + CountTimeouts(rest)
  {
    hide FindReplies, CountTimeouts;
    SkipNoS(eol, rest);
    SkipNoR(eol, rest);
    var after := eol + rest;
    if e.Answered? {
      AnsweredScan(e.lead, e.v6, e.seqNo, e.ttl, e.ms, after);
    } else if e.TimedOut? {
      TimedOutScan(e.lead, after);
    } else if e.Broken? {
      MatchlessText(e.text, after);
    } else {
      SilentText(e.text, after);
    }
  }

  lemma SilentText(text: string, rest: string)
    requires Silent(text) && rest != "" && (rest[0] == '\n' || rest[0] == '\r')
    ensures FindReplies(text + rest) == FindReplies(rest)
    ensures CountTimeouts(text + rest) == CountTimeouts(rest)
  {}

  lemma MatchlessText(text: string, rest: string)
    requires Matchless(text) && Fresh(rest)
    ensures FindReplies(text + rest) == FindReplies(rest)
    ensures CountTimeouts(text + rest) == CountTimeouts(rest)
  {}

  lemma {:induction false} LinesReplies(es: seq<Entry>, eol: string, rest: string)
    requires (forall e :: e in es ==> WellFormed(e)) && IsEol(eol) && Placed(es, eol, rest)
    ensures FindReplies(Lines(es, eol, rest)) == RepliesOf(es) + FindReplies(rest)
  {
    hide FindReplies, CountTimeouts;
    if es == [] {
      assert [] + FindReplies(rest) == FindReplies(rest);
    } else {
      LinesReplies(es[1..], eol, rest);
      LineReplies(es[0], eol, Lines(es[1..], eol, rest), RepliesOf(es[1..]), FindReplies(rest));
    }
  }

  lemma LineReplies(e: Entry, eol: string, tail: string, more: seq<Reply>, after: seq<Reply>)
    requires WellFormed(e) && IsEol(eol) && (e.Broken? ==> Fresh(eol + tail))
    requires FindReplies(tail) == more + after
    ensures FindReplies(Line(e, eol + tail)) == (EntryReplies(e) + more) + after
  {
    hide FindReplies, CountTimeouts;
    LineScan(e, eol, tail);
    assert EntryReplies(e) + (more + after) == (EntryReplies(e) + more) + after;
  }

  lemma {:induction false} LinesTimeouts(es: seq<Entry>, eol: string, rest: string)
    requires (forall e :: e in es ==> WellFormed(e)) && IsEol(eol) && Placed(es, eol, rest)
    ensures CountTimeouts(Lines(es, eol, rest)) == TimeoutsOf(es) + CountTimeouts(rest)
  {
    hide FindReplies, CountTimeouts;
    if es != [] {
      LinesTimeouts(es[1..], eol, rest);
      LineScan(es[0], eol, Lines(es[1..], eol, rest));
    }
  }

  // ---- The counts ----------------------------------------------------------

  lemma LineNoParen(e: Entry, rest: string)
    requires WellFormed(e) && '(' !in rest
    ensures '(' !in Line(e, rest)
  {
    if e.Answered? {
      DigitsOnly(e.seqNo, '(');
      DigitsOnly(e.ttl, '(');
      DigitsOnly(e.ms, '(');
      assert '(' !in TimeText(e.ms, rest);
      assert '(' !in TtlText(e.v6, e.ttl, TimeText(e.ms, rest));
    }
  }

  lemma {:induction false} LinesNoParen(es: seq<Entry>, eol: string)
    requires (forall e :: e in es ==> WellFormed(e)) && IsEol(eol)
    ensures '(' !in Lines(es, eol, "")
  {
    if es != [] {
      assert es[0] in es;
      LinesNoParen(es[1..], eol);
      LineNoParen(es[0], eol + Lines(es[1..], eol, ""));
    }
  }

  /** A literal and its four leading spaces: how a statistics line begins. */
  predicate Indented(b: string) {
    |b| > 4 && b[0] == b[1] == b[2] == b[3] == ' ' && IsDigit(b[4])
  }

  /** Where a count would have to stand in `s`, after its digits and spaces. */
  function CountedAt(s: string): (p: nat)
    ensures p <= |s|
  {
    DigitRun(s) + SpaceRun(s[DigitRun(s)..])
  }

  lemma WrongLetter(s: string, word: string, k: nat)
    requires k < 9 && CountedAt(s) + k < |s| && s[CountedAt(s) + k] != "packet(s)"[k]
    ensures MatchCount(s, word).None?
  {
    var d := DigitRun(s);
    var s1 := s[d..];
    var s2 := s1[SpaceRun(s1)..];
    assert s2[k] == s[CountedAt(s) + k];
    if d > 0 {
      assert Expect("packet(s)", s2).None?;
    }
  }

  lemma {:induction false} DigitRunStops(s: string, i: nat)
    requires i < |s| && !IsDigit(s[i])
    ensures DigitRun(s) <= i
  {
    if i > 0 && IsDigit(s[0]) {
      DigitRunStops(s[1..], i - 1);
    }
  }

  /** Digits and spaces that run past `a` stop at the digit after the indent. */
  lemma CountedPast(a: string, b: string)
    requires Indented(b)
    ensures CountedAt(a + b) <= |a| || CountedAt(a + b) == |a| + 4
  {
    var s := a + b;
    var d := DigitRun(s);
    var s1 := s[d..];
    var w := SpaceRun(s1);
    assert s[|a|] == ' ';
    DigitRunStops(s, |a|);
    assert s1[|a| + 4 - d] == b[4];
    assert s1[|a| - d] == b[0] && s1[|a| + 1 - d] == b[1] && s1[|a| + 2 - d] == b[2] && s1[|a| + 3 - d] == b[3];
  }

  /** Before the spaces that introduce the statistics, nothing can be a count. */
  lemma NoCountBegins(a: string, b: string, word: string)
    requires a != "" && '(' !in a && Indented(b)
    ensures MatchCount(a + b, word).None?
  {
    var s := a + b;
    var p := CountedAt(s);
    CountedPast(a, b);
    if p + 6 < |a| {
      assert s[p + 6] == a[p + 6];
      WrongLetter(s, word, 6);
    } else if p <= |a| {
      assert s[|a|] == b[0];
      WrongLetter(s, word, |a| - p);
    } else {
      assert s[p] == b[4];
      WrongLetter(s, word, 0);
    }
  }

  lemma {:induction false} SkipToStatistics(a: string, b: string, word: string)
    requires '(' !in a && Indented(b)
    ensures FindCount(a + b, word) == FindCount(b, word)
  {
    if a == "" {
      assert a + b == b;
    } else {
      NoCountBegins(a, b, word);
      assert (a + b)[1..] == a[1..] + b;
      SkipToStatistics(a[1..], b, word);
    }
  }

  lemma CountedText(word: string, rest: string, other: string)
    requires word != "" && !IsReSpace(word[0])
    ensures MatchesCounted(CountedTail(word, rest), other) <==> other <= word + rest
  {
    var s1 := "packet(s)" + (" " + (word + rest));
    assert " packet(s) " + (word + rest) == " " + s1;
    OneSpace(s1);
    ExpectPrefix("packet(s)", " " + (word + rest));
    OneSpace(word + rest);
  }

  /** A printed count, looked up under the word it was printed with. */
  lemma CountFound(n: nat, word: string, rest: string)
    requires n <= MAX_INT64 && word != "" && !IsReSpace(word[0])
    ensures FindCount(CountText(n, word, rest), word) == Some(n)
  {
    NumberOfText(n, CountedTail(word, rest));
    CountedText(word, rest, word);
  }

  /** Digits before text that is not the wanted count are skipped. */
  lemma {:induction false} CountSkipped(digits: string, tail: string, word: string)
    requires AllDigits(digits) && tail != "" && !IsDigit(tail[0]) && !MatchesCounted(tail, word)
    ensures FindCount(digits + tail, word) == FindCount(tail, word)
  {
    var s := digits + tail;
    if digits == "" {
      assert s == tail;
    } else {
      assert s[|digits|..] == tail && s[..|digits|] == digits;
      DigitRunUnique(s, |digits|);
      assert s[1..] == digits[1..] + tail;
      CountSkipped(digits[1..], tail, word);
    }
  }

  /** The transmitted count is not taken for the received one. */
  lemma TransmittedSkipped(n: nat, rest: string)
    ensures FindCount(CountText(n, "transmitted", rest), "received") == FindCount(rest, "received")
  {
    hide FindCount;
    NotReceived(rest);
    CountSkipped(NatText(n), CountedTail("transmitted", rest), "received");
    TailSkipped("transmitted", rest, "received");
  }

  lemma TailSkipped(word: string, rest: string, other: string)
    requires forall i :: 0 <= i < |word| ==> !IsDigit(word[i])
    ensures FindCount(CountedTail(word, rest), other) == FindCount(rest, other)
  {
    hide FindCount;
    WordsSkipped(" packet(s) ", word, rest, other);
  }

  lemma NotReceived(rest: string)
    ensures !MatchesCounted(CountedTail("transmitted", rest), "received")
  {
    assert ("transmitted" + rest)[0] == 't' && "received"[0] == 'r';
    CountedText("transmitted", rest, "received");
  }

  lemma WordsSkipped(a: string, b: string, rest: string, word: string)
    requires forall i :: 0 <= i < |a| ==> !IsDigit(a[i])
    requires forall i :: 0 <= i < |b| ==> !IsDigit(b[i])
    ensures FindCount(a + (b + rest), word) == FindCount(rest, word)
  {
    hide FindCount;
    SkipNoDigit(a, b + rest, word);
    SkipNoDigit(b, rest, word);
  }

  lemma IndentSkipped(eol: string, second: string, word: string)
    requires IsEol(eol)
    ensures FindCount(eol + ("    " + second), word) == FindCount(second, word)
  {
    hide FindCount;
    WordsSkipped(eol, "    ", second, word);
  }

  lemma BlockSkipped(a: string, first: string, word: string)
    requires '(' !in a && first != "" && IsDigit(first[0])
    ensures FindCount(a + ("    " + first), word) == FindCount(first, word)
  {
    hide FindCount;
    SkipToStatistics(a, "    " + first, word);
    SkipNoDigit("    ", first, word);
  }

  lemma CountTextDigit(n: nat, word: string, rest: string)
    ensures CountText(n, word, rest) != "" && IsDigit(CountText(n, word, rest)[0])
  {
    assert CountText(n, word, rest)[0] == NatText(n)[0];
  }

  lemma SentFound(a: string, sent: nat, after: string)
    requires '(' !in a && sent <= MAX_INT64
    ensures FindCount(a + ("    " + CountText(sent, "transmitted", after)), "transmitted") == Some(sent)
  {
    hide FindCount;
    CountTextDigit(sent, "transmitted", after);
    BlockSkipped(a, CountText(sent, "transmitted", after), "transmitted");
    CountFound(sent, "transmitted", after);
  }

  lemma ReceivedFound(a: string, sent: nat, received: nat, eol: string, footer: string)
    requires '(' !in a && received <= MAX_INT64 && IsEol(eol)
    ensures FindCount(a + Statistics(sent, received, eol, footer), "received") == Some(received)
  {
    hide FindCount;
    var second := CountText(received, "received", footer);
    var after := eol + ("    " + second);
    CountTextDigit(sent, "transmitted", after);
    BlockSkipped(a, CountText(sent, "transmitted", after), "received");
    TransmittedSkipped(sent, after);
    IndentSkipped(eol, second, "received");
    CountFound(received, "received", footer);
  }

  lemma CountTextSilent(n: nat, word: string, rest: string)
    requires 'S' !in word && 'R' !in word
    ensures FindReplies(CountText(n, word, rest)) == FindReplies(rest)
    ensures CountTimeouts(CountText(n, word, rest)) == CountTimeouts(rest)
  {
    hide FindReplies, CountTimeouts;
    DigitsOnly(n, 'S');
    DigitsOnly(n, 'R');
    SkipNoS(NatText(n), " packet(s) " + (word + rest));
    SkipNoS(" packet(s) ", word + rest);
    SkipNoS(word, rest);
    SkipNoR(NatText(n), " packet(s) " + (word + rest));
    SkipNoR(" packet(s) ", word + rest);
    SkipNoR(word, rest);
  }

  lemma StatisticsSilent(sent: nat, received: nat, eol: string, footer: string)
    requires 'q' !in footer && IsEol(eol)
    ensures FindReplies(Statistics(sent, received, eol, footer)) == []
    ensures CountTimeouts(Statistics(sent, received, eol, footer)) == 0
  {
    hide FindReplies, CountTimeouts;
    var second := CountText(received, "received", footer);
    assert footer + "" == footer;
    SkipPlain(footer, "");
    NothingInEmpty();
    CountTextSilent(received, "received", footer);
    SkipNoS("    ", second);
    SkipNoR("    ", second);
    SkipNoS(eol, "    " + second);
    SkipNoR(eol, "    " + second);
    var first := CountText(sent, "transmitted", eol + ("    " + second));
    CountTextSilent(sent, "transmitted", eol + ("    " + second));
    SkipNoS("    ", first);
    SkipNoR("    ", first);
  }

  /** The parser inverts the router's printer. When the router's own count
      agrees with the reply lines the parser returns exactly what was printed;
      when it does not (a damaged reply line) it returns an error and no result. */
  lemma ParsePrinted(es: seq<Entry>, sent: nat, received: nat, eol: string, footer: string)
    requires (forall e :: e in es ==> WellFormed(e)) && Placed(es, eol, Statistics(sent, received, eol, footer))
    requires sent <= MAX_INT64 && received <= MAX_INT64 && IsEol(eol) && 'q' !in footer
    ensures Parse(Print(es, sent, received, eol, footer))
         == if received == |RepliesOf(es)|
            then Ok(PingResult(sent, RepliesOf(es), TimeoutsOf(es)))
            else Err(CountMismatch(received, |RepliesOf(es)|))
  {
    hide FindReplies, CountTimeouts, FindCount;
    var block := Statistics(sent, received, eol, footer);
    LinesReplies(es, eol, block);
    LinesTimeouts(es, eol, block);
    StatisticsSilent(sent, received, eol, footer);
    assert RepliesOf(es) + [] == RepliesOf(es);
    LinesAppend(es, eol, "", block);
    assert "" + block == block;
    LinesNoParen(es, eol);
    SentFound(Lines(es, eol, ""), sent, eol + ("    " + CountText(received, "received", footer)));
    ReceivedFound(Lines(es, eol, ""), sent, received, eol, footer);
  }

  // ---- A whole ping run ----------------------------------------------------

  /** What happened to one echo request, as the router prints it. `Damaged` is a
      reply line in any shape that no longer matches. */
  datatype Echo =
    | Got(seqNo: nat, ttl: nat, ms: nat)
    | Damaged(text: string)
    | Lost

  ghost predicate InRange(e: Echo) {
    match e
    case Got(seqNo, ttl, ms) => seqNo <= MAX_INT64 && ttl <= MAX_INT64 && ms <= MAX_INT64
    case Damaged(text) => '(' !in text && Matchless(text) && (StartsFresh(text) || SkipSpaces(text) == "")
    case Lost => true
  }

  /** A report of a ping run; `header` and `trailer` stand around the replies. */
  datatype Report = Report(header: string, dst: string, size: nat, v6: bool, echoes: seq<Echo>,
                           trailer: string, sent: nat, footer: string)

  /** What the text in front of a reply's data is. */
  function LeadText(dst: string, size: nat, v6: bool): string {
    (if v6 then "    " else "    Reply from " + dst + ": ") + ("bytes=" + (NatText(size) + " "))
  }

  /** IPv4 prints a reply on one line, IPv6 prints the address on a line of its
      own before the data. */
  function EchoEntries(dst: string, size: nat, v6: bool, echo: Echo): seq<Entry> {
    var before := if v6 && !echo.Lost? then [Other("    Reply from " + dst)] else [];
    before + [match echo
              case Got(seqNo, ttl, ms) => Answered(LeadText(dst, size, v6), v6, seqNo, ttl, ms)
              case Damaged(text) => Broken(text)
              case Lost => TimedOut("    ")]
  }

  function AllEchoEntries(dst: string, size: nat, v6: bool, echoes: seq<Echo>): seq<Entry> {
    if echoes == [] then []
    else EchoEntries(dst, size, v6, echoes[0]) + AllEchoEntries(dst, size, v6, echoes[1..])
  }

  /** What follows the header. */
  function BodyEntries(r: Report): seq<Entry> {
    AllEchoEntries(r.dst, r.size, r.v6, r.echoes) + [Other(""), Other(r.trailer)]
  }

  function RunEntries(r: Report): seq<Entry> { [Other(r.header)] + BodyEntries(r) }

  function GotReplies(echoes: seq<Echo>): seq<Reply> {
    if echoes == [] then []
    else (if echoes[0].Got? then [Reply(echoes[0].seqNo, Millis(echoes[0].ms), echoes[0].ttl)] else [])
         + GotReplies(echoes[1..])
  }

  function LostCount(echoes: seq<Echo>): nat {
    if echoes == [] then 0 else (if echoes[0].Lost? then 1 else 0) + LostCount(echoes[1..])
  }

  /** The router counts every reply it received, damaged in print or not. */
  function ReceivedCount(echoes: seq<Echo>): nat {
    if echoes == [] then 0 else (if echoes[0].Lost? then 0 else 1) + ReceivedCount(echoes[1..])
  }

  function PrintRun(r: Report, eol: string): string {
    Print(RunEntries(r), r.sent, ReceivedCount(r.echoes), eol, r.footer)
  }

  /** What is to come of the report: its result if nothing is damaged, an error and
      no result at all otherwise. */
  function Verdict(r: Report): Result<PingResult, ParseError> {
    if forall e :: e in r.echoes ==> !e.Damaged? then
      Ok(PingResult(r.sent, GotReplies(r.echoes), LostCount(r.echoes)))
    else Err(CountMismatch(ReceivedCount(r.echoes), |GotReplies(r.echoes)|))
  }

  /** The line begins with something that cannot go on with a reply. */
  predicate StartsFresh(line: string) { SkipSpaces(line) != "" && !IsContinuation(SkipSpaces(line)[0]) }

  ghost predicate Sound(r: Report) {
    && Plain(r.header) && Plain(r.dst) && Plain(r.trailer) && StartsFresh(r.trailer)
    && (forall e :: e in r.echoes ==> InRange(e))
    && r.sent <= MAX_INT64 && ReceivedCount(r.echoes) <= MAX_INT64 && 'q' !in r.footer
  }

  // ---- The layouts of the two families --------------------------------------

  function Header(dst: string, size: nat, v6: bool): string {
    "  PING " + (dst + ((if v6 then " : " else ": ") + (NatText(size) + "  data bytes, press CTRL_C to break")))
  }

  function Trailer(dst: string, v6: bool): string {
    "  --- " + (dst + (if v6 then " ping statistics---" else " ping statistics ---"))
  }

  /** The report as the router lays it out. */
  function VrpReport(dst: string, size: nat, v6: bool, echoes: seq<Echo>, sent: nat, footer: string): Report {
    Report(Header(dst, size, v6), dst, size, v6, echoes, Trailer(dst, v6), sent, footer)
  }

  lemma {:induction false} RepliesOfAppend(a: seq<Entry>, b: seq<Entry>)
    ensures RepliesOf(a + b) == RepliesOf(a) + RepliesOf(b)
  {
    if a == [] {
      assert a + b == b;
    } else {
      RepliesOfAppend(a[1..], b);
      assert (a + b)[0] == a[0] && (a + b)[1..] == a[1..] + b;
      var x, y, z := EntryReplies(a[0]), RepliesOf(a[1..]), RepliesOf(b);
      assert x + (y + z) == (x + y) + z;
    }
  }

  lemma {:induction false} TimeoutsOfAppend(a: seq<Entry>, b: seq<Entry>)
    ensures TimeoutsOf(a + b) == TimeoutsOf(a) + TimeoutsOf(b)
  {
    if a == [] {
      assert a + b == b;
    } else {
      TimeoutsOfAppend(a[1..], b);
      assert (a + b)[0] == a[0] && (a + b)[1..] == a[1..] + b;
    }
  }

  lemma LeadIsPlain(dst: string, size: nat, v6: bool)
    requires Plain(dst)
    ensures Plain("    Reply from " + dst) && Plain(LeadText(dst, size, v6))
  {
    DigitsOnly(size, 'q');
    DigitsOnly(size, '(');
  }

  lemma EchoEntriesWellFormed(dst: string, size: nat, v6: bool, echo: Echo)
    requires Plain(dst) && InRange(echo)
    ensures forall e :: e in EchoEntries(dst, size, v6, echo) ==> WellFormed(e)
  {
    hide FindReplies, CountTimeouts, LeadText, Matchless;
    LeadIsPlain(dst, size, v6);
    PlainIsSilent("    Reply from " + dst);
  }

  lemma EchoContributes(dst: string, size: nat, v6: bool, echo: Echo)
    ensures RepliesOf(EchoEntries(dst, size, v6, echo)) == GotReplies([echo])
    ensures TimeoutsOf(EchoEntries(dst, size, v6, echo)) == LostCount([echo])
  {
    hide LeadText;
    var es := EchoEntries(dst, size, v6, echo);
    assert es == es[..|es| - 1] + [es[|es| - 1]];
    RepliesOfAppend(es[..|es| - 1], [es[|es| - 1]]);
    TimeoutsOfAppend(es[..|es| - 1], [es[|es| - 1]]);
  }

  lemma FirstEcho(dst: string, size: nat, v6: bool, echoes: seq<Echo>)
    requires echoes != []
    ensures GotReplies(echoes) == GotReplies([echoes[0]]) + GotReplies(echoes[1..])
    ensures LostCount(echoes) == LostCount([echoes[0]]) + LostCount(echoes[1..])
    ensures AllEchoEntries(dst, size, v6, echoes)
         == EchoEntries(dst, size, v6, echoes[0]) + AllEchoEntries(dst, size, v6, echoes[1..])
  {
    hide EchoEntries, Millis;
    assert [echoes[0]][1..] == [];
  }

  lemma {:induction false} AllEchoesContribute(dst: string, size: nat, v6: bool, echoes: seq<Echo>)
    requires Plain(dst) && forall e :: e in echoes ==> InRange(e)
    ensures forall e :: e in AllEchoEntries(dst, size, v6, echoes) ==> WellFormed(e)
    ensures RepliesOf(AllEchoEntries(dst, size, v6, echoes)) == GotReplies(echoes)
    ensures TimeoutsOf(AllEchoEntries(dst, size, v6, echoes)) == LostCount(echoes)
  {
    hide EchoEntries, WellFormed, InRange;
    if echoes != [] {
      hide RepliesOf, TimeoutsOf, GotReplies, LostCount, AllEchoEntries;
      FirstEcho(dst, size, v6, echoes);
      AllEchoesContribute(dst, size, v6, echoes[1..]);
      EchoEntriesWellFormed(dst, size, v6, echoes[0]);
      EchoContributes(dst, size, v6, echoes[0]);
      RepliesOfAppend(EchoEntries(dst, size, v6, echoes[0]), AllEchoEntries(dst, size, v6, echoes[1..]));
      TimeoutsOfAppend(EchoEntries(dst, size, v6, echoes[0]), AllEchoEntries(dst, size, v6, echoes[1..]));
    }
  }

  lemma {:induction false} DamageShows(echoes: seq<Echo>)
    ensures ReceivedCount(echoes) >= |GotReplies(echoes)|
    ensures ReceivedCount(echoes) == |GotReplies(echoes)| <==> forall e :: e in echoes ==> !e.Damaged?
  {
    if echoes != [] {
      DamageShows(echoes[1..]);
      assert forall e :: e in echoes <==> e == echoes[0] || e in echoes[1..];
    }
  }

  // -- Broken lines stand in front of fresh ones

  lemma {:induction false} SpaceRunOfSpaces(a: string, b: string)
    requires forall i :: 0 <= i < |a| ==> IsReSpace(a[i])
    ensures SkipSpaces(a + b) == SkipSpaces(b)
  {
    if a == "" {
      assert a + b == b;
    } else {
      assert (a + b)[1..] == a[1..] + b;
      SpaceRunOfSpaces(a[1..], b);
    }
  }

  lemma InkStands(s: string, t: string)
    requires SkipSpaces(s) != ""
    ensures SkipSpaces(s + t) == SkipSpaces(s) + t
  {
    var n := SpaceRun(s);
    assert s[n..] == SkipSpaces(s);
    var a := s[..n];
    assert s + t == a + (s[n..] + t);
    SpaceRunOfSpaces(a, s[n..] + t);
    assert (s[n..] + t)[0] == s[n];
  }

  lemma FreshLine(eol: string, line: string, rest: string)
    requires IsEol(eol) && (StartsFresh(line) || (SkipSpaces(line) == "" && Fresh(rest)))
    ensures Fresh(eol + (line + rest))
  {
    hide IsContinuation;
    if SkipSpaces(line) == "" {
      SpaceRunOfSpaces(line, rest);
    } else {
      InkStands(line, rest);
      assert (SkipSpaces(line) + rest)[0] == SkipSpaces(line)[0];
    }
    SpaceRunOfSpaces(eol, line + rest);
  }

  lemma Indented4(word: string)
    requires word != "" && !IsReSpace(word[0])
    ensures SkipSpaces("    " + word) == word
  {
    SpaceRunOfSpaces("    ", word);
  }

  lemma StartsWithReply(rest: string)
    ensures StartsFresh("    Reply from " + rest)
  {
    var word := "Reply from " + rest;
    assert "    Reply from " + rest == "    " + word;
    assert word[0] == 'R';
    Indented4(word);
  }

  lemma StartsWithRequest()
    ensures StartsFresh("    " + REQUEST_TIME_OUT)
  {
    assert REQUEST_TIME_OUT[0] == 'R';
    Indented4(REQUEST_TIME_OUT);
  }

  /** Whatever the router prints for an echo request, its line is fresh if what
      follows is. */
  lemma EchoFresh(dst: string, size: nat, v6: bool, echo: Echo, more: seq<Entry>, eol: string, rest: string)
    requires IsEol(eol) && InRange(echo) && Fresh(eol + Lines(more, eol, rest))
    ensures Fresh(eol + Lines(EchoEntries(dst, size, v6, echo) + more, eol, rest))
    ensures Placed(more, eol, rest) ==> Placed(EchoEntries(dst, size, v6, echo) + more, eol, rest)
  {
    hide IsContinuation, StartsFresh, ReplyText, Matchless, Fresh, NatText;
    var es := EchoEntries(dst, size, v6, echo) + more;
    var last := EchoEntries(dst, size, v6, echo)[|EchoEntries(dst, size, v6, echo)| - 1];
    if v6 && !echo.Lost? {
      assert es[1..] == [last] + more && ([last] + more)[1..] == more;
      StartsWithReply(dst);
      FreshLine(eol, "    Reply from " + dst, eol + Lines(es[1..], eol, rest));
    } else {
      assert es == [last] + more && es[1..] == more;
      LastFresh(dst, size, echo, last, eol, eol + Lines(more, eol, rest));
    }
  }

  lemma LastFresh(dst: string, size: nat, echo: Echo, last: Entry, eol: string, after: string)
    requires IsEol(eol) && InRange(echo) && Fresh(after)
    requires match echo
             case Got(seqNo, ttl, ms) => last == Answered(LeadText(dst, size, false), false, seqNo, ttl, ms)
             case Damaged(text) => last == Broken(text)
             case Lost => last == TimedOut("    ")
    ensures Fresh(eol + Line(last, after))
  {
    hide IsContinuation, StartsFresh, ReplyText, Matchless, Fresh, NatText;
    match echo
    case Got(seqNo, ttl, ms) =>
      var b, data := "bytes=" + (NatText(size) + " "), ReplyText(false, seqNo, ttl, ms, after);
      StartsWithReply(dst);
      assert (("    Reply from " + dst + ": ") + b) + data == ("    Reply from " + dst) + (": " + (b + data));
      FreshLine(eol, "    Reply from " + dst, ": " + (b + data));
    case Damaged(text) => FreshLine(eol, text, after);
    case Lost =>
      StartsWithRequest();
      assert "    " + (REQUEST_TIME_OUT + after) == ("    " + REQUEST_TIME_OUT) + after;
      FreshLine(eol, "    " + REQUEST_TIME_OUT, after);
  }

  lemma TrailerFresh(trailer: string, eol: string, rest: string)
    requires IsEol(eol) && StartsFresh(trailer)
    ensures Fresh(eol + Lines([Other(""), Other(trailer)], eol, rest)) && Placed([Other(""), Other(trailer)], eol, rest)
  {
    hide StartsFresh, Fresh;
    var es := [Other(""), Other(trailer)];
    assert es[1..] == [Other(trailer)] && es[1..][1..] == [];
    assert Lines([Other(trailer)], eol, rest) == trailer + (eol + rest);
    FreshLine(eol, trailer, eol + rest);
    FreshLine(eol, "", eol + Lines(es[1..], eol, rest));
    assert Placed([], eol, rest);
    assert Placed([Other(trailer)], eol, rest);
  }

  lemma {:induction false} BodyFresh(dst: string, size: nat, v6: bool, echoes: seq<Echo>, trailer: string,
      eol: string, rest: string)
    requires IsEol(eol) && StartsFresh(trailer) && forall e :: e in echoes ==> InRange(e)
    ensures var es := AllEchoEntries(dst, size, v6, echoes) + [Other(""), Other(trailer)];
            Fresh(eol + Lines(es, eol, rest)) && Placed(es, eol, rest)
  {
    hide StartsFresh, Fresh, EchoEntries, Lines, InRange, Placed;
    var tail := [Other(""), Other(trailer)];
    if echoes == [] {
      assert [] + tail == tail;
      TrailerFresh(trailer, eol, rest);
    } else {
      var first, more := EchoEntries(dst, size, v6, echoes[0]), AllEchoEntries(dst, size, v6, echoes[1..]);
      BodyFresh(dst, size, v6, echoes[1..], trailer, eol, rest);
      EchoFresh(dst, size, v6, echoes[0], more + tail, eol, rest);
      assert (first + more) + tail == first + (more + tail);
    }
  }

  // -- The whole report

  lemma BodyWellFormed(body: seq<Entry>, trailer: string)
    requires Plain(trailer) && forall e :: e in body ==> WellFormed(e)
    ensures forall e :: e in body + [Other(""), Other(trailer)] ==> WellFormed(e)
  {
    hide FindReplies, CountTimeouts;
    PlainIsSilent("");
    PlainIsSilent(trailer);
  }

  lemma QuietEntry(a: Entry)
    requires a.Other?
    ensures RepliesOf([a]) == [] && TimeoutsOf([a]) == 0
  {
    assert RepliesOf([]) == [] && TimeoutsOf([]) == 0;
  }

  lemma QuietTail(body: seq<Entry>, b: Entry, c: Entry)
    requires b.Other? && c.Other?
    ensures RepliesOf(body + [b, c]) == RepliesOf(body)
    ensures TimeoutsOf(body + [b, c]) == TimeoutsOf(body)
  {
    hide RepliesOf, TimeoutsOf;
    QuietEntry(b);
    QuietEntry(c);
    RepliesOfAppend(body, [b, c]);
    RepliesOfAppend([b], [c]);
    TimeoutsOfAppend(body, [b, c]);
    TimeoutsOfAppend([b], [c]);
    assert [b, c] == [b] + [c];
  }

  lemma BodyContributes(r: Report)
    requires Sound(r)
    ensures forall e :: e in BodyEntries(r) ==> WellFormed(e)
    ensures RepliesOf(BodyEntries(r)) == GotReplies(r.echoes) && TimeoutsOf(BodyEntries(r)) == LostCount(r.echoes)
  {
    hide AllEchoEntries, WellFormed, InRange, RepliesOf, TimeoutsOf, StartsFresh;
    var body := AllEchoEntries(r.dst, r.size, r.v6, r.echoes);
    AllEchoesContribute(r.dst, r.size, r.v6, r.echoes);
    BodyWellFormed(body, r.trailer);
    QuietTail(body, Other(""), Other(r.trailer));
  }

  /** A report is parsed from its body on: the header contributes nothing. */
  lemma BodyRoundTrip(r: Report, eol: string)
    requires Sound(r) && IsEol(eol)
    ensures Parse(Print(BodyEntries(r), r.sent, ReceivedCount(r.echoes), eol, r.footer)) == Verdict(r)
  {
    hide Parse, Print, InRange, AllEchoEntries, StartsFresh, Statistics, WellFormed, Placed;
    BodyContributes(r);
    BodyFresh(r.dst, r.size, r.v6, r.echoes, r.trailer, eol,
        Statistics(r.sent, ReceivedCount(r.echoes), eol, r.footer));
    ParsePrinted(BodyEntries(r), r.sent, ReceivedCount(r.echoes), eol, r.footer);
    DamageShows(r.echoes);
  }

  lemma RunContributes(r: Report, eol: string, rest: string)
    requires Sound(r) && IsEol(eol)
    ensures forall e :: e in RunEntries(r) ==> WellFormed(e)
    ensures Placed(RunEntries(r), eol, rest)
    ensures RepliesOf(RunEntries(r)) == GotReplies(r.echoes) && TimeoutsOf(RunEntries(r)) == LostCount(r.echoes)
  {
    hide InRange, AllEchoEntries, StartsFresh, BodyEntries, RepliesOf, TimeoutsOf, Silent, Matchless;
    var header, body := Other(r.header), BodyEntries(r);
    BodyContributes(r);
    PlainIsSilent(r.header);
    QuietEntry(header);
    RepliesOfAppend([header], body);
    TimeoutsOfAppend([header], body);
    BodyPlaced(r, eol, rest);
    assert RunEntries(r)[1..] == body;
  }

  /** For every list of replies, losses and damaged replies, in any order, in the
      IPv4 or the IPv6 layout, under any header, and with either line end: an
      undamaged run is parsed back exactly, a damaged one is rejected whole. */
  lemma RunRoundTrip(r: Report, eol: string)
    requires Sound(r) && IsEol(eol)
    ensures Parse(PrintRun(r, eol)) == Verdict(r)
  {
    hide Parse, Print, InRange, StartsFresh, Statistics, RunEntries, WellFormed, Placed;
    RunContributes(r, eol, Statistics(r.sent, ReceivedCount(r.echoes), eol, r.footer));
    ParsePrinted(RunEntries(r), r.sent, ReceivedCount(r.echoes), eol, r.footer);
    DamageShows(r.echoes);
  }

  /** The echo requests that were answered, in order. */
  function Gots(echoes: seq<Echo>): (gs: seq<Echo>)
    ensures forall g :: g in gs ==> g.Got? && g in echoes
  {
    if echoes == [] then [] else (if echoes[0].Got? then [echoes[0]] else []) + Gots(echoes[1..])
  }

  /** One reply for each of them, with its numbers. */
  ghost predicate Answers(gs: seq<Echo>, replies: seq<Reply>) {
    |replies| == |gs| && forall k :: 0 <= k < |gs| ==>
      gs[k].Got? && replies[k] == Reply(gs[k].seqNo, Millis(gs[k].ms), gs[k].ttl)
  }

  lemma AnswersMore(g: Echo, gs: seq<Echo>, replies: seq<Reply>)
    requires g.Got? && Answers(gs, replies)
    ensures Answers([g] + gs, [Reply(g.seqNo, Millis(g.ms), g.ttl)] + replies)
  {
    hide Millis;
  }

  lemma {:induction false} GotsAre(echoes: seq<Echo>)
    ensures Answers(Gots(echoes), GotReplies(echoes))
  {
    if echoes != [] {
      hide Answers, Millis;
      var e, rest := echoes[0], echoes[1..];
      GotsAre(rest);
      if e.Got? {
        AnswersMore(e, Gots(rest), GotReplies(rest));
      } else {
        assert [] + Gots(rest) == Gots(rest) && [] + GotReplies(rest) == GotReplies(rest);
      }
    }
  }

  lemma {:induction false} GotsCount(echoes: seq<Echo>)
    requires forall e :: e in echoes ==> !e.Damaged?
    ensures LostCount(echoes) + |Gots(echoes)| == |echoes|
  {
    if echoes != [] {
      GotsCount(echoes[1..]);
      assert echoes[0] in echoes;
    }
  }

  /** A count of milliseconds as an int64 count of nanoseconds. */
  lemma MillisExact(ms: nat)
    ensures 1_000_000 * ms <= 0x7FFF_FFFF_FFFF_FFFF ==> Millis(ms) == 1_000_000 * ms
    ensures -0x8000_0000_0000_0000 <= Millis(ms) <= 0x7FFF_FFFF_FFFF_FFFF
    ensures (Millis(ms) - 1_000_000 * ms) % 0x1_0000_0000_0000_0000 == 0
  {
    hide Wrapped;
    WrappedExact(ms * 1_000_000);
  }

  /** What the parser makes of a printed report, number by number. A report is rejected
      exactly when something in it is damaged. Otherwise the replies are those that were
      printed, in order, with their sequence numbers, their TTLs, and their times in
      nanoseconds, which wrap around only beyond 292 years. */
  lemma RepliesAsPrinted(r: Report, eol: string)
    requires Sound(r) && IsEol(eol)
    ensures Parse(PrintRun(r, eol)).Err? <==> exists e :: e in r.echoes && e.Damaged?
    ensures var parsed, gs := Parse(PrintRun(r, eol)), Gots(r.echoes);
            parsed.Ok? ==>
              && parsed.value.sent == r.sent && |parsed.value.replies| == |gs|
              && parsed.value.timeouts == |r.echoes| - |gs|
              && forall k :: 0 <= k < |gs| ==>
                   var reply, ms := parsed.value.replies[k], 1_000_000 * gs[k].ms;
                   && reply.seqNo == gs[k].seqNo && reply.ttl == gs[k].ttl
                   && (ms <= 0x7FFF_FFFF_FFFF_FFFF ==> reply.rtt == ms)
                   && -0x8000_0000_0000_0000 <= reply.rtt <= 0x7FFF_FFFF_FFFF_FFFF
                   && (reply.rtt - ms) % 0x1_0000_0000_0000_0000 == 0
  {
    hide Parse, PrintRun, Sound, GotReplies, Millis, LostCount;
    RunRoundTrip(r, eol);
    GotsAre(r.echoes);
    if Parse(PrintRun(r, eol)).Ok? {
      GotsCount(r.echoes);
      forall k | 0 <= k < |Gots(r.echoes)|
        ensures Parse(PrintRun(r, eol)).value.replies[k] == GotReplies(r.echoes)[k]
      {
        MillisExact(Gots(r.echoes)[k].ms);
      }
      forall k | 0 <= k < |Gots(r.echoes)|
        ensures var ms, rtt := 1_000_000 * Gots(r.echoes)[k].ms, Millis(Gots(r.echoes)[k].ms);
                && (ms <= 0x7FFF_FFFF_FFFF_FFFF ==> rtt == ms)
                && -0x8000_0000_0000_0000 <= rtt <= 0x7FFF_FFFF_FFFF_FFFF
                && (rtt - ms) % 0x1_0000_0000_0000_0000 == 0
      {
        MillisExact(Gots(r.echoes)[k].ms);
      }
    }
  }

  lemma BodyPlaced(r: Report, eol: string, rest: string)
    requires Sound(r) && IsEol(eol)
    ensures Placed(BodyEntries(r), eol, rest)
  {
    hide InRange, StartsFresh, Placed, AllEchoEntries;
    BodyFresh(r.dst, r.size, r.v6, r.echoes, r.trailer, eol, rest);
  }

  // -- The router's own layouts

  lemma PlainAppend(a: string, b: string)
    requires Plain(a) && Plain(b)
    ensures Plain(a + b)
  {}

  lemma HeaderLiteral()
    ensures Plain("  data bytes, press CTRL_C to break")
  {}

  lemma ShortLiterals()
    ensures Plain(": ") && Plain(" : ") && Plain("  PING ") && Plain("  --- ")
    ensures Plain(" ping statistics ---") && Plain(" ping statistics---")
  {}

  lemma PlainParts(a: string, b: string, c: string, d: string, e: string)
    requires Plain(a) && Plain(b) && Plain(c) && Plain(d) && Plain(e)
    ensures Plain(a + (b + (c + (d + e))))
  {
    hide Plain;
    PlainAppend(d, e);
    PlainAppend(c, d + e);
    PlainAppend(b, c + (d + e));
    PlainAppend(a, b + (c + (d + e)));
  }

  lemma NumberIsPlain(n: nat)
    ensures Plain(NatText(n))
  {
    DigitsOnly(n, 'q');
    DigitsOnly(n, '(');
  }

  /** The real header and trailer of both families are fit for a report. */
  lemma LayoutIsSound(dst: string, size: nat, v6: bool)
    requires Plain(dst)
    ensures Plain(Header(dst, size, v6)) && Plain(Trailer(dst, v6)) && StartsFresh(Trailer(dst, v6))
  {
    hide Plain, IsContinuation;
    HeaderLiteral();
    ShortLiterals();
    NumberIsPlain(size);
    PlainParts("  PING ", dst, if v6 then " : " else ": ", NatText(size), "  data bytes, press CTRL_C to break");
    var end := if v6 then " ping statistics---" else " ping statistics ---";
    PlainAppend(dst, end);
    PlainAppend("  --- ", dst + end);
    DashesFresh(dst + end);
  }

  lemma DashesFresh(rest: string)
    ensures StartsFresh("  --- " + rest)
  {
    assert "  --- " + rest == "  " + ("--- " + rest);
    SpaceRunOfSpaces("  ", "--- " + rest);
  }

  /** The reports the router prints are parsed back, in both families. */
  lemma VrpRoundTrip(dst: string, size: nat, v6: bool, echoes: seq<Echo>, sent: nat, eol: string, footer: string)
    requires Plain(dst) && (forall e :: e in echoes ==> InRange(e))
    requires sent <= MAX_INT64 && ReceivedCount(echoes) <= MAX_INT64 && IsEol(eol) && 'q' !in footer
    ensures Parse(PrintRun(VrpReport(dst, size, v6, echoes, sent, footer), eol))
         == Verdict(VrpReport(dst, size, v6, echoes, sent, footer))
  {
    hide Parse, PrintRun, Verdict, InRange, StartsFresh;
    LayoutIsSound(dst, size, v6);
    RunRoundTrip(VrpReport(dst, size, v6, echoes, sent, footer), eol);
  }

  /** White space in front of an output, which the session trims, never matters
      to a successful parse. */
  lemma {:induction false} LeadingSpaceIgnored(s: string)
    ensures FindReplies(TrimSpaceLeft(s)) == FindReplies(s)
    ensures CountTimeouts(TrimSpaceLeft(s)) == CountTimeouts(s)
    ensures FindCount(TrimSpaceLeft(s), "transmitted") == FindCount(s, "transmitted")
    ensures FindCount(TrimSpaceLeft(s), "received") == FindCount(s, "received")
  {
    hide FindReplies, CountTimeouts, FindCount;
    if s != "" && IsSpace(s[0]) {
      LeadingSpaceIgnored(s[1..]);
      OneSpaceIgnored(s);
    }
  }

  lemma OneSpaceIgnored(s: string)
    requires s != "" && IsSpace(s[0])
    ensures FindReplies(s) == FindReplies(s[1..]) && CountTimeouts(s) == CountTimeouts(s[1..])
    ensures FindCount(s, "transmitted") == FindCount(s[1..], "transmitted")
    ensures FindCount(s, "received") == FindCount(s[1..], "received")
  {
    hide FindReplies, CountTimeouts, FindCount;
    assert s == [s[0]] + s[1..];
    SkipNoS([s[0]], s[1..]);
    SkipNoR([s[0]], s[1..]);
    SkipNoDigit([s[0]], s[1..], "transmitted");
    SkipNoDigit([s[0]], s[1..], "received");
  }
}
