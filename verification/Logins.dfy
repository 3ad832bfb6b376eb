/** The login of a session: how a prompt is learned and a question refused, for
    every way the login text can be cut into chunks. */
module Logins {
  import opened Wrappers
  import opened Text
  import opened Framing
  import opened Session
  import opened Exchange
  import opened Dialogue

  // ---- Exactly when a login does not depend on the chunks -----------------------------

  /** What a login has found out. */
  function Decision(end: LoginEnd): Verdict {
    match end.result
    case Learned => Prompted(end.prompt)
    case Question => Asked
    case _ => Undecided
  }

  /** However the bytes are cut into chunks, the login decides the same. */
  ghost predicate AlwaysDecides(bytes: string, v: Verdict) {
    forall chunks, patience: nat :: Flat(chunks) == bytes && patience >= |chunks| ==>
      Decision(Login("", chunks, patience)) == v
  }

  /** No beginning of the text looks like something else. */
  ghost predicate NeverMisleads(text: string, v: Verdict) {
    forall t: string :: t <= text ==> Judge(t) in {Undecided, v}
  }

  lemma {:induction false} DecidedOnTheWay(buf: string, chunks: seq<string>, patience: nat, v: Verdict)
    requires patience >= |chunks| && v != Undecided && Judge(Visible(buf + Flat(chunks))) == v
    requires forall p: string :: p <= buf + Flat(chunks) ==> Judge(Visible(p)) in {Undecided, v}
    ensures Decision(Login(buf, chunks, patience)) == v
    decreases |chunks|
  {
    hide Visible, Judge;
    assert buf <= buf + Flat(chunks);
    if chunks == [] {
      assert buf + Flat(chunks) == buf;
    } else if Judge(Visible(buf)) == Undecided {
      assert buf + Flat(chunks) == (buf + chunks[0]) + Flat(chunks[1..]);
      DecidedOnTheWay(buf + chunks[0], chunks[1..], patience - 1, v);
    }
  }

  /** A text that ends in an open escape sequence decides nothing. */
  lemma OpenEscapeUndecided(p: string)
    requires !Settled(p)
    ensures Judge(Visible(p)) == Undecided
  {
    hide Judge, Visible;
    OpenEscapeShows(p);
    NoClosingUndecided(Visible(p));
  }

  lemma PrefixesJudged(bytes: string, v: Verdict, p: string)
    requires NeverMisleads(Visible(bytes), v) && p <= bytes
    ensures Judge(Visible(p)) in {Undecided, v}
  {
    hide Judge, Visible;
    if Settled(p) {
      assert bytes == p + bytes[|p|..];
      VisibleAppend(p, bytes[|p|..]);
      assert Visible(p) <= Visible(bytes);
    } else {
      OpenEscapeUndecided(p);
    }
  }

  /** A match at the start is there as soon as its own bytes are. */
  lemma CsiInPrefix(p: string, s: string)
    requires p <= s && p != "" && CsiLength(p) > 0
    ensures CsiLength(s) == CsiLength(p)
  {
    assert !Unfinished(p);
    CsiDecided(p, s[|p|..]);
    assert s == p + s[|p|..];
  }

  /** Every beginning of the visible text is on the screen at some moment. */
  lemma {:induction false} PrefixShows(s: string, k: nat) returns (p: string)
    requires k <= |StripCsi(s)|
    ensures p <= s && StripCsi(p) == StripCsi(s)[..k]
    decreases |s|
  {
    if k == 0 {
      p := "";
    } else if CsiLength(s) > 0 {
      var n := CsiLength(s);
      var rest := PrefixShows(s[n..], k);
      p := s[..n] + rest;
      assert s == s[..n] + s[n..];
      WholeCsi(s[..n], s[n..]);
      CsiDecided(s[..n], rest);
      assert p[n..] == rest;
    } else {
      var rest := PrefixShows(s[1..], k - 1);
      p := [s[0]] + rest;
      assert p[1..] == rest && p <= s;
      if CsiLength(p) > 0 {
        CsiInPrefix(p, s);
      }
    }
  }

  lemma WholeCsi(a: string, b: string)
    requires CsiLength(a + b) == |a| > 0
    ensures !Unfinished(a) && CsiLength(a) == |a|
  {
    var s := a + b;
    assert s[2..] == a[2..] + b;
    if ParameterRun(a[2..]) < |a[2..]| {
      ParameterRunStops(a[2..], b);
    }
  }

  lemma {:induction false} PrefixKept(s: string, k: nat) returns (n: nat)
    requires k <= |RemoveCR(s)|
    ensures n <= |s| && RemoveCR(s[..n]) == RemoveCR(s)[..k]
  {
    if k == 0 {
      n := 0;
      assert s[..0] == "";
    } else if s[0] == '\r' {
      n := PrefixKept(s[1..], k);
      n := n + 1;
      assert s[..n][1..] == s[1..][..n - 1];
    } else {
      n := PrefixKept(s[1..], k - 1);
      n := n + 1;
      assert s[..n][1..] == s[1..][..n - 1];
    }
  }

  lemma SomePrefixShows(bytes: string, t: string) returns (p: string)
    requires t <= Visible(bytes)
    ensures p <= bytes && Visible(p) == t
  {
    var n := PrefixKept(StripCsi(bytes), |t|);
    p := PrefixShows(bytes, n);
  }

  /** A login decides the same for every split if and only if no beginning of what
      it shows looks like something else: an earlier prompt, or a question. */
  lemma LoginExactly(bytes: string, v: Verdict)
    requires v != Undecided && Judge(Visible(bytes)) == v
    ensures AlwaysDecides(bytes, v) <==> NeverMisleads(Visible(bytes), v)
  {
    hide Judge, Visible;
    if NeverMisleads(Visible(bytes), v) {
      forall chunks, patience: nat | Flat(chunks) == bytes && patience >= |chunks|
        ensures Decision(Login("", chunks, patience)) == v
      {
        assert "" + Flat(chunks) == bytes;
        forall p: string | p <= bytes ensures Judge(Visible(p)) in {Undecided, v} {
          PrefixesJudged(bytes, v, p);
        }
        DecidedOnTheWay("", chunks, patience, v);
      }
    } else {
      var t: string :| t <= Visible(bytes) && Judge(t) !in {Undecided, v};
      var p := SomePrefixShows(bytes, t);
      SplitThere(bytes, p, v);
    }
  }

  /** The split that shows `p` first is misled. */
  lemma SplitThere(bytes: string, p: string, v: Verdict)
    requires p <= bytes && Judge(Visible(p)) !in {Undecided, v}
    ensures !AlwaysDecides(bytes, v)
  {
    hide Judge, Visible;
    var rest := bytes[|p|..];
    var chunks := [p, rest];
    assert chunks[1..] == [rest];
    assert Flat([rest]) == rest + Flat([]) == rest;
    assert Flat(chunks) == p + rest == bytes;
    EmptyUndecided();
    assert "" + p == p;
    assert Login("", chunks, 2) == Login(p, [rest], 1);
    assert Decision(Login("", chunks, 2)) == Judge(Visible(p));
  }

  lemma EmptyUndecided()
    ensures Judge(Visible("")) == Undecided
  {
    NoClosingUndecided("");
  }

  // ---- Prompts ------------------------------------------------------------------------

  /** Text without a closing bracket decides nothing. */
  lemma NoClosingUndecided(text: string)
    requires text == "" || !IsClosing(text[|text| - 1]) || forall i :: 0 <= i < |text| ==> !IsClosing(text[i])
    requires (exists i :: 0 <= i < |text| && IsClosing(text[i])) ==>
               !IsReSpace(text[|text| - 1]) && !IsQuestionTail(text[|text| - 1])
    ensures Judge(text) == Undecided
  {
    hide IsPrompt;
    var t, u := TrimReSpaceRight(text), TrimQuestionRight(text);
    if t != "" {
      assert t[|t| - 1] == text[|t| - 1];
    }
    if u != "" {
      assert u[|u| - 1] == text[|u| - 1];
      assert Upper(u)[|u| - 1] != ']';
    }
    assert PromptAtEnd(text).None?;
    NoBracketNoQuestion(u);
  }

  lemma NoBracketNoQuestion(u: string)
    requires u == "" || Upper(u)[|u| - 1] != ']'
    ensures !EndsWith(Upper(u), "[Y/N]")
  {
    var s := Upper(u);
    if |s| >= 5 {
      assert s[|s| - 5..][4] == s[|s| - 1];
    }
  }

  lemma PromptFoundAtEnd(t: string, prompt: string, blanks: string)
    requires IsPrompt(prompt) && EndsWith(t, prompt) && AllBlank(blanks)
    ensures PromptAtEnd(t + blanks) == Some(prompt)
  {
    hide IsPrompt;
    var text := t + blanks;
    PromptEnd(prompt);
    assert t[|t| - 1] == t[|t| - |prompt|..][|prompt| - 1] == prompt[|prompt| - 1];
    forall i | |t| <= i < |text| ensures IsReSpace(text[i]) {
      assert text[i] == blanks[i - |t|] && blanks[i - |t|] in blanks;
    }
    TrimReSpaceUnique(text, t);
    PromptIsFound(t, prompt);
  }

  /** A banner, the prompt and blanks: the prompt is learned, and no question seen. */
  lemma PromptJudged(banner: string, prompt: string, blanks: string)
    requires IsPrompt(prompt) && !Contains(Upper(prompt), "Y/N") && AllBlank(blanks)
    ensures Judge(banner + prompt + blanks) == Prompted(prompt)
  {
    hide IsPrompt, AllBlank, PromptAtEnd, EndsWith;
    var t := banner + prompt;
    PromptEnd(prompt);
    assert t[|t| - 1] == prompt[|prompt| - 1];
    AppendEnds(banner, prompt);
    PromptFoundAtEnd(t, prompt, blanks);
    QuestionTrimmed(t, blanks);
    NotAQuestion(banner, prompt);
  }

  lemma AppendEnds(a: string, b: string)
    ensures EndsWith(a + b, b)
  {
    assert (a + b)[|a|..] == b;
  }

  lemma {:induction false} QuestionTrimmed(t: string, blanks: string)
    requires t != "" && !IsQuestionTail(t[|t| - 1]) && AllBlank(blanks)
    ensures TrimQuestionRight(t + blanks) == t
  {
    if blanks == "" {
      assert t + blanks == t;
    } else {
      assert blanks[|blanks| - 1] in blanks;
      assert (t + blanks)[..|t + blanks| - 1] == t + blanks[..|blanks| - 1];
      QuestionTrimmed(t, blanks[..|blanks| - 1]);
    }
  }

  lemma NotEnding(s: string, sub: string, k: nat)
    requires k < |sub| && (|sub| <= |s| ==> s[|s| - |sub| + k] != sub[k])
    ensures !EndsWith(s, sub)
  {
    if |sub| <= |s| {
      assert s[|s| - |sub|..][k] == s[|s| - |sub| + k];
    }
  }

  lemma ExactQuestion(u: string)
    requires |u| == 5 && !Contains(u, "Y/N")
    ensures exists k :: 0 <= k < 3 && u[1 + k] != "Y/N"[k]
  {
    assert !At(u, 1, "Y/N");
    AtPointwise(u, 1, "Y/N");
  }

  /** A prompt that is not itself a `Y/N` question does not end in one. */
  lemma NotAQuestion(banner: string, prompt: string)
    requires IsPrompt(prompt) && !Contains(Upper(prompt), "Y/N")
    ensures !EndsWith(Upper(banner + prompt), "[Y/N]")
  {
    hide Upper, Contains;
    var t, n := banner + prompt, |prompt|;
    var k;
    if n < 5 {
      assert t[|t| - 5 + (5 - n)] == prompt[0];
      k := 5 - n;
    } else if n > 5 {
      assert t[|t| - 5] == prompt[n - 5];
      k := 0;
    } else {
      ExactQuestion(Upper(prompt));
      var j :| 0 <= j < 3 && Upper(prompt)[1 + j] != "Y/N"[j];
      assert t[|t| - 5 + (1 + j)] == prompt[1 + j];
      k := 1 + j;
    }
    QuestionLetters(k);
    NotEnding(Upper(t), "[Y/N]", k);
  }

  lemma QuestionLetters(k: nat)
    requires k < 5
    ensures "[Y/N]"[k] == if k == 0 then '[' else if k == 4 then ']' else "Y/N"[k - 1]
    ensures 1 <= k < 4 ==> "[Y/N]"[k] !in {'<', '['}
  {}

  lemma JudgedShort(text: string, banner: string, prompt: string)
    requires text <= banner + prompt && |text| < |banner + prompt| && IsPrompt(prompt)
    requires forall i :: 0 <= i < |banner| ==> !IsClosing(banner[i])
    ensures Judge(text) == Undecided
  {
    hide Judge;
    forall i | 0 <= i < |text| ensures !IsClosing(text[i]) {
      assert i >= |banner| ==> text[i] == prompt[i - |banner|];
    }
    NoClosingUndecided(text);
  }

  lemma JudgedLong(text: string, banner: string, prompt: string, blanks: string)
    requires text <= banner + prompt + blanks && |text| >= |banner + prompt| && IsPrompt(prompt)
    requires !Contains(Upper(prompt), "Y/N") && AllBlank(blanks)
    ensures Judge(text) == Prompted(prompt)
  {
    hide Judge, IsPrompt, Contains;
    var t := banner + prompt;
    var some := text[|t|..];
    assert text == t + some;
    assert some <= blanks;
    assert forall i :: 0 <= i < |some| ==> some[i] == blanks[i] && blanks[i] in blanks;
    PromptJudged(banner, prompt, some);
  }

  /** After a banner without a closing bracket the device's own prompt is learned,
      for every split into chunks. */
  lemma PromptIsLearned(bytes: string, banner: string, prompt: string, blanks: string)
    requires Visible(bytes) == banner + prompt + blanks
    requires forall i :: 0 <= i < |banner| ==> !IsClosing(banner[i])
    requires IsPrompt(prompt) && !Contains(Upper(prompt), "Y/N") && AllBlank(blanks)
    ensures NeverMisleads(Visible(bytes), Prompted(prompt)) && AlwaysDecides(bytes, Prompted(prompt))
  {
    hide Judge, IsPrompt, Contains, AllBlank, Visible;
    PromptJudged(banner, prompt, blanks);
    forall t: string | t <= Visible(bytes) ensures Judge(t) in {Undecided, Prompted(prompt)} {
      if |t| < |banner + prompt| {
        assert t <= banner + prompt by {
          assert (banner + prompt + blanks)[..|t|] == t;
        }
        JudgedShort(t, banner, prompt);
      } else {
        JudgedLong(t, banner, prompt, blanks);
      }
    }
    LoginExactly(bytes, Prompted(prompt));
  }

  /** A banner with a line in the shape of a prompt: cut behind that line, the login
      learns the line. */
  lemma BannerMisleads()
    ensures Judge("<n>") == Prompted("<n>")
    ensures !AlwaysDecides("<n>\n<rt>", Prompted("<rt>"))
  {
    hide Judge, Contains, Upper;
    var notice := "<n>";
    NoticeIsPrompt(notice);
    PromptJudged("", notice, "");
    assert "" + notice + "" == notice;
    NoEscapeStripped(notice);
    NoReturnKept(notice);
    SplitThere("<n>\n<rt>", notice, Prompted("<rt>"));
  }

  lemma NoticeIsPrompt(notice: string)
    requires notice == "<n>"
    ensures IsPrompt(notice) && ESC !in notice && '\r' !in notice && !Contains(Upper(notice), "Y/N")
  {
    hide Upper, Contains;
    assert Upper(notice)[1] == 'N';
    SlashNeeded(Upper(notice));
  }

  lemma SlashNeeded(u: string)
    requires |u| == 3 && u[1] != '/'
    ensures !Contains(u, "Y/N")
  {
    var i := IndexOf(u, "Y/N");
    AtPointwise(u, 0, "Y/N");
    assert u[0 + 1] != "Y/N"[1];
  }

  // ---- Questions --------------------------------------------------------------------------

  /** `[Y/N]` in any case, and what may follow it, with or without a colon. */
  ghost predicate IsQuestion(q: string, tail: string) {
    Upper(q) == "[Y/N]" && forall i :: 0 <= i < |tail| ==> IsQuestionTail(tail[i])
  }

  lemma {:induction false} TailTrimmed(t: string, tail: string)
    requires t != "" && !IsQuestionTail(t[|t| - 1]) && forall i :: 0 <= i < |tail| ==> IsQuestionTail(tail[i])
    ensures TrimQuestionRight(t + tail) == t
  {
    if tail == "" {
      assert t + tail == t;
    } else {
      assert (t + tail)[..|t + tail| - 1] == t + tail[..|tail| - 1];
      TailTrimmed(t, tail[..|tail| - 1]);
    }
  }

  lemma {:induction false} UpperAppend(a: string, b: string)
    ensures Upper(a + b) == Upper(a) + Upper(b)
  {}

  lemma QuestionJudged(banner: string, q: string, tail: string)
    requires IsQuestion(q, tail)
    ensures Judge(banner + q + tail) == Asked
  {
    hide Upper, TrimQuestionRight;
    var t := banner + q;
    assert Upper(q)[4] == ']';
    assert t[|t| - 1] == q[4] == ']';
    TailTrimmed(t, tail);
    UpperAppend(banner, q);
    AppendEnds(Upper(banner), Upper(q));
  }

  lemma BeforeTheQuestion(text: string, banner: string, q: string)
    requires text <= banner + q && |text| < |banner + q| && Upper(q) == "[Y/N]"
    requires forall i :: 0 <= i < |banner| ==> !IsClosing(banner[i])
    ensures Judge(text) == Undecided
  {
    hide Judge;
    forall i | 0 <= i < |text| ensures !IsClosing(text[i]) {
      if i >= |banner| {
        assert text[i] == q[i - |banner|] && Upper(q)[i - |banner|] == "[Y/N]"[i - |banner|];
      }
    }
    NoClosingUndecided(text);
  }

  /** A `[Y/N]` question after a banner without a closing bracket is refused for
      every split into chunks: it is never taken for a prompt. */
  lemma QuestionIsRefused(bytes: string, banner: string, q: string, tail: string)
    requires Visible(bytes) == banner + q + tail && IsQuestion(q, tail)
    requires forall i :: 0 <= i < |banner| ==> !IsClosing(banner[i])
    ensures AlwaysDecides(bytes, Asked)
  {
    hide Judge, Visible, Upper;
    QuestionJudged(banner, q, tail);
    forall t: string | t <= Visible(bytes) ensures Judge(t) in {Undecided, Asked} {
      if |t| < |banner + q| {
        assert t <= banner + q by {
          assert (banner + q + tail)[..|t|] == t;
        }
        BeforeTheQuestion(t, banner, q);
      } else {
        var some := t[|banner + q|..];
        assert t == banner + q + some;
        assert forall i :: 0 <= i < |some| ==> some[i] == tail[i];
        QuestionJudged(banner, q, some);
      }
    }
    LoginExactly(bytes, Asked);
  }

  // ---- From the login to the dialogue -----------------------------------------------------

  lemma {:induction false} LoginStops(buf: string, chunks: seq<string>, patience: nat, m: nat)
    requires patience >= |chunks| && Judge(Visible(buf + Flat(chunks))) != Undecided && m <= |buf + Flat(chunks)|
    requires forall p: string :: p <= buf + Flat(chunks) && |p| < m ==> Judge(Visible(p)) == Undecided
    ensures var end := Login(buf, chunks, patience);
            |end.chunks| <= |chunks| && end.chunks == chunks[|chunks| - |end.chunks|..]
            && |Flat(end.chunks)| <= |buf + Flat(chunks)| - m
    decreases |chunks|
  {
    hide Visible, Judge;
    assert buf <= buf + Flat(chunks);
    if chunks == [] {
      assert buf + Flat(chunks) == buf;
    } else if Judge(Visible(buf)) == Undecided {
      assert buf + Flat(chunks) == (buf + chunks[0]) + Flat(chunks[1..]);
      LoginStops(buf + chunks[0], chunks[1..], patience - 1, m);
    }
  }

  lemma NotBeforeTheBracket(login: string, p: string, banner: string, prompt: string)
    requires Visible(login) == banner + prompt && login != "" && IsClosing(login[|login| - 1])
    requires forall i :: 0 <= i < |banner| ==> !IsClosing(banner[i])
    requires IsPrompt(prompt) && p <= login && |p| < |login|
    ensures Judge(Visible(p)) == Undecided
  {
    hide Judge, IsPrompt, Visible;
    if !Settled(p) {
      OpenEscapeUndecided(p);
    } else {
      var rest := login[|p|..];
      assert login == p + rest;
      VisibleAppend(p, rest);
      assert rest[|rest| - 1] == login[|login| - 1];
      ClosingShows(rest, |rest| - 1);
      JudgedShort(Visible(p), banner, prompt);
    }
  }

  /** What a login leaves behind, whatever the chunks: the device's prompt, and unread
      only bytes that come after it. */
  lemma LoginLeaves(chunks: seq<string>, patience: nat, login: string, tail: string, banner: string, prompt: string)
    requires Flat(chunks) == login + tail && patience >= |chunks|
    requires Visible(login) == banner + prompt && login != "" && IsClosing(login[|login| - 1])
    requires AllBlank(Visible(tail)) && forall i :: 0 <= i < |banner| ==> !IsClosing(banner[i])
    requires IsPrompt(prompt) && !Contains(Upper(prompt), "Y/N")
    ensures var end := Login("", chunks, patience);
            end.result == Learned && end.prompt == prompt && IsSuffix(Flat(end.chunks), tail)
  {
    hide Judge, IsPrompt, Visible, Contains, Upper, AllBlank, IsSuffix, Login, AlwaysDecides, NeverMisleads;
    var bytes := login + tail;
    AnswerVisible(login, tail, prompt, banner);
    PromptIsLearned(bytes, banner, prompt, Visible(tail));
    LearnedAlways(bytes, chunks, patience, prompt);
    PromptJudged(banner, prompt, Visible(tail));
    LoginStopsBehind(chunks, patience, login, tail, banner, prompt);
  }

  lemma LearnedAlways(bytes: string, chunks: seq<string>, patience: nat, prompt: string)
    requires AlwaysDecides(bytes, Prompted(prompt)) && Flat(chunks) == bytes && patience >= |chunks|
    ensures var end := Login("", chunks, patience); end.result == Learned && end.prompt == prompt
  {
    assert Decision(Login("", chunks, patience)) == Prompted(prompt);
  }

  lemma LoginStopsBehind(chunks: seq<string>, patience: nat, login: string, tail: string, banner: string,
      prompt: string)
    requires Flat(chunks) == login + tail && patience >= |chunks| && Judge(Visible(login + tail)) != Undecided
    requires Visible(login) == banner + prompt && login != "" && IsClosing(login[|login| - 1])
    requires IsPrompt(prompt) && forall i :: 0 <= i < |banner| ==> !IsClosing(banner[i])
    ensures IsSuffix(Flat(Login("", chunks, patience).chunks), tail)
  {
    hide Judge, IsPrompt, Visible, Login, IsClosing;
    var bytes := login + tail;
    assert "" + Flat(chunks) == bytes;
    forall p: string | p <= bytes && |p| < |login| ensures Judge(Visible(p)) == Undecided {
      assert p <= login by {
        assert forall k :: 0 <= k < |p| ==> p[k] == bytes[k];
      }
      NotBeforeTheBracket(login, p, banner, prompt);
    }
    LoginStops("", chunks, patience, |login|);
    LateRest(chunks, |chunks| - |Login("", chunks, patience).chunks|, login, tail);
  }

  /** A session that has just logged in is ready for a dialogue: every step of a
      courteous device gives exactly its result. */
  lemma LoginThenDialogue(chunks: seq<string>, patience: nat, login: string, tail: string,
                          banner: string, prompt: string, steps: seq<Step>)
    requires Flat(chunks) == login + tail && patience >= |chunks|
    requires Visible(login) == banner + prompt && login != "" && IsClosing(login[|login| - 1])
    requires AllBlank(Visible(tail)) && forall i :: 0 <= i < |banner| ==> !IsClosing(banner[i])
    requires IsPrompt(prompt) && !Contains(Upper(prompt), "Y/N")
    requires var end := Login("", chunks, patience); InTime(Shell(end.buf, end.prompt, end.chunks, true, []), steps)
    requires Courteous(tail, steps, prompt)
    ensures var end := Login("", chunks, patience);
            var s := Shell(end.buf, end.prompt, end.chunks, true, []);
            && end.result == Learned && s.prompt == prompt
            && Follows(s, steps) && |Results(s, steps)| == |steps|
            && forall k :: 0 <= k < |steps| ==> Gives(steps[k], Results(s, steps)[k])
  {
    hide IsPrompt, Visible, Contains, Upper, AllBlank, InTime, Courteous, Follows, Results, Gives, IsSuffix, Login;
    LoginLeaves(chunks, patience, login, tail, banner, prompt);
    var end := Login("", chunks, patience);
    HonestDialogueExact(Shell(end.buf, end.prompt, end.chunks, true, []), tail, steps);
  }
}
