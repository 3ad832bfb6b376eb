/** The scanners find exactly what the regular expressions of remote/huawei.go and
    remote/session.go match, and where. */
module Patterns {
  import opened Wrappers
  import opened Text
  import opened Huawei
  import opened PingOutput
  import opened PingReports
  import opened Framing
  import opened Session

  // ---- Runs of digits and of spaces ----------------------------------------------------------

  /** `\d+` and `\s*`. */
  predicate Digits(s: string) { s != "" && forall i :: 0 <= i < |s| ==> '0' <= s[i] <= '9' }

  predicate SpacesOnly(s: string) {
    forall i :: 0 <= i < |s| ==> s[i] == ' ' || s[i] == '\t' || s[i] == '\n' || s[i] == '\r' || s[i] == '\U{0C}'
  }

  lemma NumberIs(d: string, rest: string)
    requires Digits(d) && (rest != "" ==> !IsDigit(rest[0]))
    ensures AllDigits(d) && Number(d + rest) == Some((Atoi(d), rest))
  {
    var s := d + rest;
    assert s[..|d|] == d && s[|d|..] == rest;
    DigitRunUnique(s, |d|);
  }

  lemma NumberParts(s: string) returns (d: string)
    requires Number(s).Some?
    ensures Digits(d) && AllDigits(d) && Number(s).value.0 == Atoi(d) && s == d + Number(s).value.1
    ensures Number(s).value.1 != "" ==> !IsDigit(Number(s).value.1[0])
  {
    d := s[..DigitRun(s)];
  }

  lemma {:induction false} SpaceRunIs(w: string, rest: string)
    requires SpacesOnly(w) && (rest != "" ==> !IsReSpace(rest[0]))
    ensures SpaceRun(w + rest) == |w| && SkipSpaces(w + rest) == rest
    ensures Spaces(w + rest) == if w == "" then None else Some(rest)
  {
    if w == "" {
      assert w + rest == rest;
    } else {
      assert (w + rest)[1..] == w[1..] + rest;
      SpaceRunIs(w[1..], rest);
    }
  }

  lemma SpaceParts(s: string) returns (w: string)
    ensures SpacesOnly(w) && s == w + SkipSpaces(s)
    ensures Spaces(s).Some? ==> w != "" && Spaces(s).value == SkipSpaces(s)
  {
    w := s[..SpaceRun(s)];
  }

  lemma Literal(lit: string, rest: string)
    ensures Expect(lit, lit + rest) == Some(rest)
  {
    ExpectPrefix(lit, rest);
  }

  // ---- replyRe --------------------------------------------------------------------------------

  /** `time\s*=\s*(\d+)\s*ms` and the rest. */
  predicate TimeShape(s: string, a: string, b: string, ms: string, c: string, rest: string) {
    && SpacesOnly(a) && SpacesOnly(b) && Digits(ms) && SpacesOnly(c)
    && s == "time" + (a + ("=" + (b + (ms + (c + ("ms" + rest))))))
  }

  lemma TimeIs(s: string, a: string, b: string, ms: string, c: string, rest: string)
    requires TimeShape(s, a, b, ms, c, rest)
    ensures AllDigits(ms) && MatchTime(s) == Some((Atoi(ms), rest))
  {
    hide Number, Spaces, SkipSpaces, Atoi;
    var s3 := c + ("ms" + rest);
    var s2 := ms + s3;
    Literal("time", a + ("=" + (b + s2)));
    SpaceRunIs(a, "=" + (b + s2));
    Literal("=", b + s2);
    assert s2[0] == ms[0];
    SpaceRunIs(b, s2);
    assert c != "" ==> s3[0] == c[0];
    NumberIs(ms, s3);
    SpaceRunIs(c, "ms" + rest);
    Literal("ms", rest);
  }

  lemma TimeParts(s: string) returns (a: string, b: string, ms: string, c: string)
    requires MatchTime(s).Some?
    ensures TimeShape(s, a, b, ms, c, MatchTime(s).value.1)
  {
    hide Number, Spaces, SkipSpaces;
    var s1 := Expect("time", s).value;
    a := SpaceParts(s1);
    var s2 := Expect("=", SkipSpaces(s1)).value;
    b := SpaceParts(s2);
    ms := NumberParts(SkipSpaces(s2));
    var s3 := Number(SkipSpaces(s2)).value.1;
    c := SpaceParts(s3);
  }

  /** `Sequence=(\d+)\s+(?:ttl|hop limit)=(\d+)\s+` and the rest. */
  predicate HeadShape(s: string, n: string, a: string, word: string, ttl: string, b: string, rest: string) {
    && Digits(n) && SpacesOnly(a) && a != "" && word in {"ttl=", "hop limit="} && Digits(ttl)
    && SpacesOnly(b) && b != ""
    && s == "Sequence=" + (n + (a + (word + (ttl + (b + rest)))))
  }

  lemma TtlIs(word: string, ttl: string, rest: string)
    requires word in {"ttl=", "hop limit="} && Digits(ttl) && (rest != "" ==> !IsDigit(rest[0]))
    ensures AllDigits(ttl) && MatchTtl(word + (ttl + rest)) == Some((Atoi(ttl), rest))
    ensures !IsReSpace((word + (ttl + rest))[0])
  {
    var s := word + (ttl + rest);
    assert word == "ttl=" ==> s[..3] == "ttl";
    assert word == "hop limit=" ==> s[0] == 'h';
    Literal(word, ttl + rest);
    NumberIs(ttl, rest);
  }

  lemma TtlParts(s: string) returns (word: string, ttl: string)
    requires MatchTtl(s).Some?
    ensures word in {"ttl=", "hop limit="} && Digits(ttl) && AllDigits(ttl) && MatchTtl(s).value.0 == Atoi(ttl)
    ensures s == word + (ttl + MatchTtl(s).value.1)
  {
    hide Number;
    word := if "ttl" <= s then "ttl=" else "hop limit=";
    ttl := NumberParts(Expect(word, s).value);
  }

  /** One match of replyRe: its three numbers and what follows it. */
  ghost predicate MatchesReply(s: string, n: string, ttl: string, ms: string, rest: string) {
    exists a, word, b, time, c, d, e ::
      HeadShape(s, n, a, word, ttl, b, time) && TimeShape(time, c, d, ms, e, rest)
  }

  lemma ReplyIs(s: string, n: string, ttl: string, ms: string, rest: string)
    requires MatchesReply(s, n, ttl, ms, rest)
    ensures AllDigits(n) && AllDigits(ttl) && AllDigits(ms)
    ensures MatchReply(s) == Some((Reply(Atoi(n), Millis(Atoi(ms)), Atoi(ttl)), rest))
  {
    hide Number, Spaces, SkipSpaces, Atoi, MatchTime, MatchTtl, TimeShape, Millis;
    var a, word, b, time, c, d, e :|
      HeadShape(s, n, a, word, ttl, b, time) && TimeShape(time, c, d, ms, e, rest);
    var t := ttl + (b + time);
    Literal("Sequence=", n + (a + (word + t)));
    assert (a + (word + t))[0] == a[0] && (b + time)[0] == b[0];
    NumberIs(n, a + (word + t));
    TtlIs(word, ttl, b + time);
    SpaceRunIs(a, word + t);
    TimeStarts(time, c, d, ms, e, rest);
    SpaceRunIs(b, time);
    TimeIs(time, c, d, ms, e, rest);
  }

  lemma TimeStarts(s: string, a: string, b: string, ms: string, c: string, rest: string)
    requires TimeShape(s, a, b, ms, c, rest)
    ensures s != "" && s[0] == 't'
  {}

  lemma ReplyParts(s: string) returns (n: string, ttl: string, ms: string)
    requires MatchReply(s).Some?
    ensures MatchesReply(s, n, ttl, ms, MatchReply(s).value.1)
  {
    hide Number, Spaces, SkipSpaces, MatchTime, MatchTtl, TimeShape, Millis;
    var s1 := Expect("Sequence=", s).value;
    n := NumberParts(s1);
    var s2 := Number(s1).value.1;
    var a := SpaceParts(s2);
    var s3 := Spaces(s2).value;
    var word: string;
    word, ttl := TtlParts(s3);
    var s4 := MatchTtl(s3).value.1;
    var b := SpaceParts(s4);
    var time := Spaces(s4).value;
    var c, d, e: string;
    c, d, ms, e := TimeParts(time);
    assert HeadShape(s, n, a, word, ttl, b, time);
  }

  /** Both ways: the scanner succeeds exactly where the expression matches, and then with
      the numbers it captures - the time in nanoseconds - and at the place where the match
      ends. */
  lemma ReplyPattern(s: string)
    ensures MatchReply(s).Some? <==> exists n, ttl, ms, rest :: MatchesReply(s, n, ttl, ms, rest)
    ensures forall n, ttl, ms, rest :: MatchesReply(s, n, ttl, ms, rest) ==>
              && AllDigits(n) && AllDigits(ttl) && AllDigits(ms)
              && MatchReply(s).Some? && MatchReply(s).value.1 == rest
              && var r := MatchReply(s).value.0;
                 r.seqNo == Atoi(n) && r.ttl == Atoi(ttl)
                 && (1_000_000 * Atoi(ms) <= 0x7FFF_FFFF_FFFF_FFFF ==> r.rtt == 1_000_000 * Atoi(ms))
  {
    hide MatchReply, MatchesReply, Atoi, Millis;
    if MatchReply(s).Some? {
      var n, ttl, ms := ReplyParts(s);
    }
    forall n, ttl, ms, rest | MatchesReply(s, n, ttl, ms, rest)
      ensures AllDigits(n) && AllDigits(ttl) && AllDigits(ms)
      ensures MatchReply(s) == Some((Reply(Atoi(n), Millis(Atoi(ms)), Atoi(ttl)), rest))
      ensures 1_000_000 * Atoi(ms) <= 0x7FFF_FFFF_FFFF_FFFF ==> Millis(Atoi(ms)) == 1_000_000 * Atoi(ms)
    {
      ReplyIs(s, n, ttl, ms, rest);
      MillisExact(Atoi(ms));
    }
  }

  // ---- sentRe and receivedRe --------------------------------------------------------------------

  /** `(\d+)\s+packet\(s\)\s+` and the word. */
  predicate CountShape(s: string, n: string, a: string, b: string, word: string, rest: string) {
    && Digits(n) && SpacesOnly(a) && a != "" && SpacesOnly(b) && b != ""
    && s == n + (a + ("packet(s)" + (b + (word + rest))))
  }

  ghost predicate MatchesCount(s: string, word: string, n: string) {
    exists a, b, rest :: CountShape(s, n, a, b, word, rest)
  }

  lemma CountIs(s: string, word: string, n: string)
    requires MatchesCount(s, word, n) && word in {"transmitted", "received"}
    ensures AllDigits(n) && MatchCount(s, word) == Some(Atoi(n))
  {
    hide Number, Spaces, SkipSpaces, Atoi;
    var a, b, rest :| CountShape(s, n, a, b, word, rest);
    var s2 := b + (word + rest);
    assert (a + ("packet(s)" + s2))[0] == a[0];
    NumberIs(n, a + ("packet(s)" + s2));
    SpaceRunIs(a, "packet(s)" + s2);
    Literal("packet(s)", s2);
    assert (word + rest)[0] == word[0] && !IsReSpace(word[0]);
    SpaceRunIs(b, word + rest);
  }

  lemma CountParts(s: string, word: string) returns (n: string)
    requires MatchCount(s, word).Some?
    ensures MatchesCount(s, word, n)
  {
    hide Number, Spaces, SkipSpaces;
    n := NumberParts(s);
    var s1 := Number(s).value.1;
    var a := SpaceParts(s1);
    var s2 := Expect("packet(s)", Spaces(s1).value).value;
    var b := SpaceParts(s2);
    var s3 := Spaces(s2).value;
    assert s3 == word + s3[|word|..];
    assert CountShape(s, n, a, b, word, s3[|word|..]);
  }

  /** Both ways. */
  lemma CountPattern(s: string, word: string)
    requires word in {"transmitted", "received"}
    ensures MatchCount(s, word).Some? <==> exists n :: MatchesCount(s, word, n)
    ensures forall n :: MatchesCount(s, word, n) ==> AllDigits(n) && MatchCount(s, word) == Some(Atoi(n))
  {
    hide MatchCount, MatchesCount, Atoi;
    if MatchCount(s, word).Some? {
      var n := CountParts(s, word);
    }
    forall n | MatchesCount(s, word, n) ensures AllDigits(n) && MatchCount(s, word) == Some(Atoi(n)) {
      CountIs(s, word, n);
    }
  }

  // ---- The leftmost match -----------------------------------------------------------------------

  /** Nothing is found before the first place where something matches, and that is found. */
  lemma {:induction false} RepliesFromTheLeft(s: string, i: nat)
    requires i <= |s| && forall j :: 0 <= j < i ==> MatchReply(s[j..]).None?
    ensures FindReplies(s) == FindReplies(s[i..])
    ensures MatchReply(s[i..]).Some? ==>
              FindReplies(s) == [MatchReply(s[i..]).value.0] + FindReplies(MatchReply(s[i..]).value.1)
    ensures i == |s| ==> FindReplies(s) == []
  {
    hide MatchReply, FindReplies;
    FindRepliesStep(s[i..]);
    if i == 0 {
      assert s[0..] == s;
    } else {
      assert s[0..] == s;
      forall j | 0 <= j < i - 1 ensures MatchReply(s[1..][j..]).None? {
        assert s[1..][j..] == s[j + 1..];
      }
      RepliesFromTheLeft(s[1..], i - 1);
      assert s[1..][i - 1..] == s[i..];
      FindRepliesStep(s);
    }
    if i == |s| {
      assert s[i..] == "";
    }
  }

  lemma {:induction false} CountFromTheLeft(s: string, word: string, i: nat)
    requires i <= |s| && forall j :: 0 <= j < i ==> MatchCount(s[j..], word).None?
    ensures MatchCount(s[i..], word).Some? ==> FindCount(s, word) == MatchCount(s[i..], word)
    ensures i == |s| && MatchCount("", word).None? ==> FindCount(s, word).None?
  {
    hide MatchCount;
    assert s[0..] == s;
    if i > 0 {
      forall j | 0 <= j < i - 1 ensures MatchCount(s[1..][j..], word).None? {
        assert s[1..][j..] == s[j + 1..];
      }
      CountFromTheLeft(s[1..], word, i - 1);
      assert s[1..][i - 1..] == s[i..];
    }
  }

  /** timeoutRe: the next match is the first occurrence of its words, and the next but one
      is looked for behind it. */
  lemma {:induction false} TimeoutsFromTheLeft(s: string)
    ensures var i := IndexOf(s, "Request time out");
            CountTimeouts(s) == if i < 0 then 0 else 1 + CountTimeouts(s[i + 16..])
    decreases |s|
  {
    hide IndexOf;
    var lit := "Request time out";
    var i := IndexOf(s, lit);
    TimeoutWords();
    if At(s, 0, lit) {
      assert s[0..|lit|] == lit;
      assert lit <= s;
    } else if s != "" {
      TimeoutsFromTheLeft(s[1..]);
      AtShift(s, lit);
      var r := IndexOf(s[1..], lit);
      if r >= 0 {
        assert At(s, r + 1, lit);
        assert i == r + 1;
        assert s[1..][r + 16..] == s[i + 16..];
      }
    }
  }

  lemma TimeoutWords()
    ensures REQUEST_TIME_OUT == "Request time out" && |REQUEST_TIME_OUT| == 16
  {}

  // ---- ansiRe ------------------------------------------------------------------------------------

  /** `[0-9;?]*` */
  predicate Parameters(s: string) { forall i :: 0 <= i < |s| ==> '0' <= s[i] <= '9' || s[i] == ';' || s[i] == '?' }

  /** `\x1b\[[0-9;?]*[A-Za-z]` and the rest. */
  predicate CsiShape(s: string, params: string, letter: char, rest: string) {
    && Parameters(params) && ('A' <= letter <= 'Z' || 'a' <= letter <= 'z')
    && s == "\U{1B}[" + (params + ([letter] + rest))
  }

  lemma {:induction false} ParameterRunIs(params: string, rest: string)
    requires Parameters(params) && (rest != "" ==> !IsParameter(rest[0]))
    ensures ParameterRun(params + rest) == |params|
  {
    if params == "" {
      assert params + rest == rest;
    } else {
      assert (params + rest)[1..] == params[1..] + rest;
      ParameterRunIs(params[1..], rest);
    }
  }

  /** Both ways: a control sequence is found exactly where the expression matches, with
      the length of the match. */
  lemma CsiPattern(s: string)
    ensures CsiLength(s) > 0 <==> exists params, letter, rest :: CsiShape(s, params, letter, rest)
    ensures forall params, letter, rest :: CsiShape(s, params, letter, rest) ==> CsiLength(s) == |params| + 3
  {
    forall params, letter, rest | CsiShape(s, params, letter, rest) ensures CsiLength(s) == |params| + 3 {
      ParameterRunIs(params, [letter] + rest);
      assert s[2..] == params + ([letter] + rest);
      assert s[0] == '\U{1B}' && s[1] == '[';
    }
    var n := CsiLength(s);
    if n > 0 {
      assert forall i :: 2 <= i < n - 1 ==> s[i] == s[2..][i - 2];
      assert s == "\U{1B}[" + (s[2..n - 1] + ([s[n - 1]] + s[n..]));
      assert CsiShape(s, s[2..n - 1], s[n - 1], s[n..]);
    }
  }

  lemma StripStep(s: string)
    requires s != ""
    ensures CsiLength(s) > 0 ==> StripCsi(s) == StripCsi(s[CsiLength(s)..])
    ensures CsiLength(s) == 0 ==> StripCsi(s) == [s[0]] + StripCsi(s[1..])
    ensures StripCsi("") == "" && CsiLength("") == 0
  {}

  lemma {:induction false} KeptFromTheLeft(s: string, i: nat)
    requires i <= |s| && forall j :: 0 <= j < i ==> CsiLength(s[j..]) == 0
    ensures StripCsi(s) == s[..i] + StripCsi(s[i..])
  {
    hide StripCsi, CsiLength;
    assert s[0..] == s;
    if i == 0 {
      assert s[..0] + StripCsi(s) == StripCsi(s);
    } else {
      var rest := s[1..];
      forall j | 0 <= j < i - 1 ensures CsiLength(rest[j..]) == 0 {
        assert rest[j..] == s[j + 1..];
      }
      KeptFromTheLeft(rest, i - 1);
      StripStep(s);
      assert rest[i - 1..] == s[i..];
      assert s[..i] == [s[0]] + rest[..i - 1];
    }
  }

  /** Characters in front of the first control sequence stay; it is dropped. */
  lemma StrippedFromTheLeft(s: string, i: nat)
    requires i <= |s| && forall j :: 0 <= j < i ==> CsiLength(s[j..]) == 0
    ensures StripCsi(s) == s[..i] + StripCsi(s[i..])
    ensures CsiLength(s[i..]) > 0 ==> StripCsi(s) == s[..i] + StripCsi(s[i + CsiLength(s[i..])..])
  {
    hide StripCsi, CsiLength;
    KeptFromTheLeft(s, i);
    if i < |s| {
      StripStep(s[i..]);
      var n := CsiLength(s[i..]);
      assert s[i..][n..] == s[i + n..];
    } else {
      StripStep("x");
      assert s[i..] == "";
    }
  }

  // ---- promptRe ------------------------------------------------------------------------------------

  /** `[^\s<>\[\]]+` */
  predicate PromptName(s: string) {
    s != "" && forall i :: 0 <= i < |s| ==>
      s[i] !in {'<', '>', '[', ']', ' ', '\t', '\n', '\r', '\U{0C}'}
  }

  /** `[<\[][~*]?[^\s<>\[\]]+[>\]]` */
  ghost predicate PromptShape(p: string) {
    exists open, mark, name, close ::
      && open in {"<", "["} && mark in {"", "~", "*"} && PromptName(name) && close in {">", "]"}
      && p == open + (mark + (name + close))
  }

  lemma ShapeIsPrompt(open: string, mark: string, name: string, close: string)
    requires open in {"<", "["} && mark in {"", "~", "*"} && PromptName(name) && close in {">", "]"}
    ensures IsPrompt(open + (mark + (name + close)))
  {
    var p := open + (mark + (name + close));
    forall i | 0 < i < |p| - 1 ensures !IsBracket(p[i]) && !IsReSpace(p[i]) {
      assert p[i] == if i <= |mark| then mark[i - 1] else name[i - 1 - |mark|];
    }
  }

  lemma PromptHasShape(p: string)
    requires IsPrompt(p)
    ensures PromptShape(p)
  {
    var open, name, close := [p[0]], p[1..|p| - 1], [p[|p| - 1]];
    assert forall i :: 0 <= i < |name| ==> name[i] == p[i + 1];
    assert p == open + ("" + (name + close));
    assert open in {"<", "["} && close in {">", "]"} && PromptName(name);
  }

  /** Both ways: a prompt is what the group of the expression matches. */
  lemma PromptPattern(p: string)
    ensures IsPrompt(p) <==> PromptShape(p)
  {
    hide IsPrompt, PromptName;
    if PromptShape(p) {
      var open, mark, name, close :|
        && open in {"<", "["} && mark in {"", "~", "*"} && PromptName(name) && close in {">", "]"}
        && p == open + (mark + (name + close));
      ShapeIsPrompt(open, mark, name, close);
    }
    if IsPrompt(p) {
      PromptHasShape(p);
    }
  }

  // ---- What is trimmed ----------------------------------------------------------------------------

  /** `strings.TrimRight(s, " \n")` takes away exactly the spaces and newlines at the end. */
  lemma BlanksTrimmed(s: string)
    ensures var t := TrimBlankRight(s);
            && t <= s && (forall i :: |t| <= i < |s| ==> s[i] == ' ' || s[i] == '\n')
            && (t != "" ==> t[|t| - 1] != ' ' && t[|t| - 1] != '\n')
  {
    var t := TrimBlankRight(s);
    assert forall i :: |t| <= i < |s| ==> s[i] in s[|t|..];
  }

  predicate QuestionTail(s: string) { forall i :: 0 <= i < |s| ==> s[i] in {' ', '\t', '\r', '\n', ':'} }

  lemma QuestionFound(text: string)
    requires AsksQuestion(text)
    ensures exists head, q, tail :: text == head + (q + tail) && Upper(q) == "[Y/N]" && QuestionTail(tail)
  {
    hide TrimQuestionRight, Upper;
    var t := TrimQuestionRight(text);
    var head, q := t[..|t| - 5], t[|t| - 5..];
    assert t == head + q;
    UpperSuffix(head, q);
    assert Upper(t)[|t| - 5..] == Upper(q);
    QuestionTailTrimmed(text);
    assert text == head + (q + text[|t|..]);
  }

  lemma QuestionAsked(head: string, q: string, tail: string)
    requires Upper(q) == "[Y/N]" && QuestionTail(tail)
    ensures AsksQuestion(head + (q + tail))
  {
    hide TrimQuestionRight, Upper;
    var s := head + q;
    assert |q| == 5 && s[|s| - 5..] == q;
    QuestionKept(s, tail);
    assert head + (q + tail) == s + tail;
    UpperSuffix(head, q);
    assert Upper(s)[|s| - 5..] == Upper(q);
  }

  /** A question at the end of the login text: `[Y/N]` in any case, with nothing but
      spaces, line ends and colons behind it. */
  lemma QuestionExactly(text: string)
    ensures AsksQuestion(text) <==>
            exists head, q, tail :: text == head + (q + tail) && Upper(q) == "[Y/N]" && QuestionTail(tail)
  {
    hide AsksQuestion, Upper, QuestionTail;
    if AsksQuestion(text) {
      QuestionFound(text);
    }
    if head, q, tail :| text == head + (q + tail) && Upper(q) == "[Y/N]" && QuestionTail(tail) {
      QuestionAsked(head, q, tail);
    }
  }

  lemma UpperSuffix(a: string, b: string)
    ensures Upper(a + b) == Upper(a) + Upper(b)
  {}

  lemma {:induction false} QuestionTailTrimmed(s: string)
    ensures QuestionTail(s[|TrimQuestionRight(s)|..])
  {
    if s != "" && IsQuestionTail(s[|s| - 1]) {
      var rest := s[..|s| - 1];
      QuestionTailTrimmed(rest);
      var n := |TrimQuestionRight(s)|;
      assert s[n..] == rest[n..] + [s[|s| - 1]];
    }
  }

  lemma {:induction false} QuestionKept(s: string, tail: string)
    requires QuestionTail(tail) && |s| >= 5 && Upper(s[|s| - 5..]) == "[Y/N]"
    ensures TrimQuestionRight(s + tail) == s
  {
    if tail == "" {
      assert s + tail == s;
      assert s[|s| - 5..][4] == s[|s| - 1];
      assert Upper(s[|s| - 5..])[4] == ']';
    } else {
      assert (s + tail)[..|s + tail| - 1] == s + tail[..|tail| - 1];
      QuestionKept(s, tail[..|tail| - 1]);
    }
  }
}
