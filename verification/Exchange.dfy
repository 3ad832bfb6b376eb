/** What a session returns when it talks to a device: the reply of the command
    it sent, whatever the chunks in which the bytes arrive. */
module Exchange {
  import opened Wrappers
  import opened Text
  import opened Framing
  import opened Session

  // ---- Independence of chunking -----------------------------------------------

  /** `text` is `before`, then from the first anchor on `mid`, then the prompt,
      which occurs there for the first time, then only spaces and newlines. */
  ghost predicate Framed(text: string, anchor: string, prompt: string, before: string, mid: string, blanks: string) {
    && text == before + ((mid + prompt) + blanks)
    && IndexOf(text, anchor) == |before|
    && IndexOf(mid + prompt, prompt) == |mid|
    && AllBlank(blanks)
    && IsPrompt(prompt)
  }

  lemma {:induction false} PromptEnd(prompt: string)
    requires IsPrompt(prompt)
    ensures prompt != "" && IsClosing(prompt[|prompt| - 1]) && !IsBlank(prompt[|prompt| - 1])
    ensures !EscapeTail(prompt[|prompt| - 1])
    ensures '\n' !in prompt
  {
    forall i | 0 <= i < |prompt| ensures prompt[i] != '\n' {
      assert i == 0 || i == |prompt| - 1 || !IsReSpace(prompt[i]);
    }
  }

  lemma LastCharacter(s: string, c: char, sub: string)
    requires s != "" && sub != "" && s[|s| - 1] == c && sub[|sub| - 1] != c
    ensures !EndsWith(s, sub)
  {
    if |sub| <= |s| {
      assert s[|s| - |sub|..][|sub| - 1] == c;
    }
  }

  /** Text that ends in an open escape sequence does not end in the prompt. */
  lemma OpenEscapeNotCompleted(text: string, prompt: string, anchor: string)
    requires text != "" && EscapeTail(text[|text| - 1]) && IsPrompt(prompt)
    ensures Completed(text, prompt, anchor).None?
  {
    hide IndexOf, IsPrompt, EndsWith;
    PromptEnd(prompt);
    var i := IndexOf(text, anchor);
    if 0 <= i < |text| {
      var search := text[i..];
      assert search[|search| - 1] == text[|text| - 1];
      assert TrimBlankRight(search) == search;
      LastCharacter(search, text[|text| - 1], prompt);
    } else if i == |text| {
      assert TrimBlankRight(text[i..]) == "";
      NothingEnds(prompt);
    }
  }

  lemma NothingEnds(sub: string)
    requires sub != ""
    ensures !EndsWith("", sub)
  {}

  lemma VisibleEndsSettled(s: string)
    requires Visible(s) != "" && !EscapeTail(Visible(s)[|Visible(s)| - 1])
    ensures Settled(s)
  {
    if !Settled(s) {
      OpenEscapeShows(s);
    }
  }

  /** Trimming never leaves a blank at the end. */
  lemma {:induction false} TrimmedBeforeBlanks(x: string, m: string, blanks: string)
    requires x <= m + blanks && AllBlank(blanks)
    ensures |TrimBlankRight(x)| <= |m|
    decreases |x|
  {
    if |x| > |m| {
      assert x[|x| - 1] == blanks[|x| - 1 - |m|] && blanks[|x| - 1 - |m|] in blanks;
      TrimmedBeforeBlanks(x[..|x| - 1], m, blanks);
    }
  }

  lemma PrefixEnds(t: string, m: string, prompt: string)
    requires t <= m && EndsWith(t, prompt)
    ensures At(m, |t| - |prompt|, prompt)
  {
    assert m[..|t|] == t;
    assert m[|t| - |prompt|..|t|] == t[|t| - |prompt|..];
  }

  /** The search text of a prefix, once it ends in the prompt, ends in that very
      occurrence of the prompt. */
  lemma CompletedAtPrompt(x: string, mid: string, prompt: string, blanks: string)
    requires x <= (mid + prompt) + blanks
    requires IndexOf(mid + prompt, prompt) == |mid| && AllBlank(blanks)
    requires EndsWith(TrimBlankRight(x), prompt)
    ensures TrimBlankRight(x) == mid + prompt
  {
    var m := mid + prompt;
    var t := TrimBlankRight(x);
    TrimmedBeforeBlanks(x, m, blanks);
    PrefixOf(t, m, blanks);
    PrefixEnds(t, m, prompt);
    assert |t| == |m|;
  }

  lemma PrefixOf(t: string, m: string, b: string)
    requires t <= m + b && |t| <= |m|
    ensures t <= m
  {}

  /** After any prefix of the bytes the loop either goes on or returns `mid`;
      when it returns, only blanks are left to be seen. */
  lemma CompletedOnPrefix(p: string, q: string, anchor: string, prompt: string,
                          before: string, mid: string, blanks: string)
    requires Framed(Visible(p + q), anchor, prompt, before, mid, blanks)
    ensures Completed(Visible(p), prompt, anchor) in {None, Some(mid)}
    ensures q == "" ==> Completed(Visible(p), prompt, anchor) == Some(mid)
    ensures Completed(Visible(p), prompt, anchor).Some? ==> Settled(p) && AllBlank(Visible(q))
  {
    var whole, text := Visible(p + q), Visible(p);
    PromptEnd(prompt);
    if q == "" {
      assert p + q == p;
      FramedEnd(whole, anchor, prompt, before, mid, blanks);
      VisibleEndsSettled(p);
    }
    if !Settled(p) {
      OpenEscapeShows(p);
      OpenEscapeNotCompleted(text, prompt, anchor);
    } else {
      VisibleAppend(p, q);
      assert text <= whole;
      if q == "" {
        assert Visible(q) == "";
        assert text == whole;
      }
      if IndexOf(text, anchor) >= 0 {
        IndexOfPrefix(text, whole, anchor);
        if EndsWith(TrimBlankRight(text[|before|..]), prompt) {
          CompletedOnText(text, Visible(q), prompt, before, mid, blanks);
        }
        if q == "" {
          CompletedOnWhole(text, prompt, before, mid, blanks);
        }
      }
    }
  }

  lemma FramedEnd(whole: string, anchor: string, prompt: string, before: string, mid: string, blanks: string)
    requires Framed(whole, anchor, prompt, before, mid, blanks)
    ensures whole != "" && !EscapeTail(whole[|whole| - 1])
  {
    PromptEnd(prompt);
    if blanks == "" {
      assert whole[|whole| - 1] == prompt[|prompt| - 1];
    } else {
      assert whole[|whole| - 1] == blanks[|blanks| - 1];
      assert blanks[|blanks| - 1] in blanks;
    }
  }

  lemma SearchText(text: string, rest: string, before: string, m: string)
    requires text + rest == before + m && |before| <= |text|
    ensures text[|before|..] + rest == m
  {
    assert (text + rest)[|before|..] == text[|before|..] + rest;
    assert (before + m)[|before|..] == m;
  }

  lemma CompletedOnText(text: string, rest: string, prompt: string, before: string, mid: string, blanks: string)
    requires text + rest == before + ((mid + prompt) + blanks) && |before| <= |text|
    requires IndexOf(mid + prompt, prompt) == |mid| && AllBlank(blanks)
    requires EndsWith(TrimBlankRight(text[|before|..]), prompt)
    ensures TrimBlankRight(text[|before|..]) == mid + prompt && AllBlank(rest)
  {
    var x, m := text[|before|..], mid + prompt;
    SearchText(text, rest, before, m + blanks);
    CompletedAtPrompt(x, mid, prompt, blanks);
    TailOfBlanks(x, rest, m, blanks);
  }

  lemma CompletedOnWhole(text: string, prompt: string, before: string, mid: string, blanks: string)
    requires text == before + ((mid + prompt) + blanks) && AllBlank(blanks) && IsPrompt(prompt)
    ensures TrimBlankRight(text[|before|..]) == mid + prompt
  {
    var m := mid + prompt;
    assert text[|before|..] == m + blanks;
    PromptEnd(prompt);
    assert m[|m| - 1] == prompt[|prompt| - 1];
    TrimBlankRightUnique(m, blanks);
  }

  lemma TailOfBlanks(x: string, rest: string, m: string, blanks: string)
    requires x + rest == m + blanks && |x| >= |m| && AllBlank(blanks)
    ensures AllBlank(rest)
  {
    assert rest == (m + blanks)[|x|..] == blanks[|x| - |m|..];
  }

  /** However the bytes are cut into chunks - inside an escape sequence, between
      a carriage return and its newline - waitPrompt returns the text from the
      first anchor up to the prompt, and leaves only blanks unread. */
  lemma {:induction false} WaitIndependentOfChunks(
    buf: string, chunks: seq<string>, patience: nat, anchor: string, prompt: string,
    before: string, mid: string, blanks: string)
    requires Framed(Visible(buf + Flat(chunks)), anchor, prompt, before, mid, blanks)
    requires patience >= |chunks|
    ensures var end := Wait(buf, chunks, prompt, patience, anchor);
            end.result == Ready(mid) && end.buf == "" && |end.chunks| <= |chunks|
            && end.chunks == chunks[|chunks| - |end.chunks|..]
            && AllBlank(Visible(Flat(end.chunks)))
    decreases |chunks|
  {
    hide Visible, Completed, Framed;
    CompletedOnPrefix(buf, Flat(chunks), anchor, prompt, before, mid, blanks);
    if Completed(Visible(buf), prompt, anchor).None? {
      var b := buf + chunks[0];
      assert buf + Flat(chunks) == b + Flat(chunks[1..]);
      WaitIndependentOfChunks(b, chunks[1..], patience - 1, anchor, prompt, before, mid, blanks);
    }
  }

  // ---- A command and its reply --------------------------------------------------

  /** What ends a stray: a prompt's bracket, a space or a newline. */
  predicate IsSeparator(c: char) { IsBracket(c) || IsBlank(c) }

  /** Text in front of an echo in which the anchor can neither stand nor begin. */
  ghost predicate Harmless(stray: string, anchor: string) {
    && IndexOf(stray, anchor) < 0
    && (stray != "" ==> IsSeparator(stray[|stray| - 1]))
    && forall i :: 0 <= i < |anchor| ==> !IsSeparator(anchor[i])
  }

  /** A device's answer as it reads on the screen: strays, then what it shows for
      the command - the echo, wrapped or not, and the response - and the prompt. */
  ghost predicate Answer(text: string, stray: string, anchor: string, shown: string, prompt: string, blanks: string) {
    && text == stray + ((shown + prompt) + blanks)
    && Harmless(stray, anchor)
    && Contains(shown, anchor) && !Contains(shown[IndexOf(shown, anchor)..], prompt)
    && AllBlank(blanks)
    && IsPrompt(prompt)
  }

  /** What is left of it: from the first anchor on, without the anchor's line. */
  function Response(shown: string, anchor: string): string
    requires Contains(shown, anchor)
  {
    CleanOutput(shown[IndexOf(shown, anchor)..], anchor)
  }

  /** An echo on the screen, in lines of `at` characters, or on one line for 0. */
  function WrappedAt(s: string, at: nat): string
    decreases |s|
  {
    if at == 0 || |s| <= at then s else s[..at] + ("\n" + WrappedAt(s[at..], at))
  }

  lemma {:induction false} FieldOccurs(s: string, i: nat)
    requires i < |Fields(s)|
    ensures exists k: nat :: At(s, k, Fields(s)[i])
    decreases |s|
  {
    if IsSpace(s[0]) {
      FieldOccurs(s[1..], i);
      var f := Fields(s)[i];
      var k: nat :| At(s[1..], k, f);
      AtShift(s, f);
      assert At(s, k + 1, f);
    } else {
      var n := TokenLength(s);
      if i == 0 {
        assert At(s, 0, Fields(s)[0]);
      } else {
        FieldOccurs(s[n..], i - 1);
        var f := Fields(s)[i];
        var k: nat :| At(s[n..], k, f);
        assert s[n..][k..k + |f|] == s[n + k..n + k + |f|];
        assert At(s, n + k, f);
      }
    }
  }

  /** The last token of a command occurs in the command. */
  lemma LastTokenOccurs(cmd: string)
    ensures Contains(cmd, LastToken(cmd))
  {
    if Fields(cmd) == [] {
      assert At(cmd, 0, cmd);
    } else {
      FieldOccurs(cmd, |Fields(cmd)| - 1);
    }
  }

  /** The anchor does not begin in a harmless stray. */
  lemma AnchorNotInStray(stray: string, rest: string, anchor: string)
    requires Harmless(stray, anchor)
    ensures IndexOf(stray + rest, anchor) < 0 || IndexOf(stray + rest, anchor) >= |stray|
  {
    var s := stray + rest;
    forall q: nat | q < |stray| ensures !At(s, q, anchor) {
      AtPointwise(s, q, anchor);
      if q + |anchor| <= |stray| {
        assert s[q..q + |anchor|] == stray[q..q + |anchor|];
        assert !At(stray, q, anchor);
      } else {
        assert s[|stray| - 1] == stray[|stray| - 1];
        assert s[q + (|stray| - 1 - q)] != anchor[|stray| - 1 - q];
      }
    }
  }

  /** Behind a harmless stray the first anchor is the first one of the echo. */
  lemma AnchorAfterStray(stray: string, rest: string, anchor: string)
    requires Harmless(stray, anchor) && IndexOf(rest, anchor) >= 0
    ensures IndexOf(stray + rest, anchor) == |stray| + IndexOf(rest, anchor)
  {
    hide Harmless, At;
    var s := stray + rest;
    AnchorNotInStray(stray, rest, anchor);
    var i, j := IndexOf(rest, anchor), IndexOf(s, anchor);
    AtBehind(stray, rest, i, anchor);
    if j >= |stray| {
      AtBehind(stray, rest, j - |stray|, anchor);
    }
  }

  lemma AtBehind(a: string, b: string, k: nat, sub: string)
    ensures At(a + b, |a| + k, sub) <==> At(b, k, sub)
  {
    if k + |sub| <= |b| {
      assert (a + b)[|a| + k..|a| + k + |sub|] == b[k..k + |sub|];
    }
  }

  lemma PartOf(s: string, a: string, b: string, c: string, q: nat, sub: string)
    requires s == a + (b + c) && !Contains(b, sub) && |a| <= q && q + |sub| <= |a| + |b|
    ensures !At(s, q, sub)
  {
    assert s[q..q + |sub|] == b[q - |a|..q - |a| + |sub|];
    assert !At(b, q - |a|, sub);
  }

  /** Behind text without the prompt, the prompt occurs only where it stands: its
      opening bracket cannot be an inner or the last character of another one. */
  lemma PromptOnlyAtEnd(mid: string, prompt: string)
    requires IsPrompt(prompt) && !Contains(mid, prompt)
    ensures IndexOf(mid + prompt, prompt) == |mid|
  {
    var s := mid + prompt;
    forall q: nat | q < |mid| ensures !At(s, q, prompt) {
      if q + |prompt| <= |mid| {
        assert s == "" + (mid + prompt);
        PartOf(s, "", mid, prompt, q, prompt);
      } else {
        AtPointwise(s, q, prompt);
        assert s[q + (|mid| - q)] == prompt[0];
      }
    }
    assert At(s, |mid|, prompt);
  }

  lemma EndsInNewline(s: string, q: nat, prompt: string, k: nat)
    requires IsPrompt(prompt) && q <= k < |s| && k < q + |prompt| && s[k] == '\n'
    ensures !At(s, q, prompt)
  {
    PromptEnd(prompt);
    AtPointwise(s, q, prompt);
    if q + |prompt| <= |s| {
      assert s[q + (k - q)] == '\n' && prompt[k - q] in prompt;
    }
  }

  /** The prompt stands on one line. */
  lemma PromptInOneLine(a: string, b: string, prompt: string)
    requires IsPrompt(prompt) && !Contains(a, prompt) && !Contains(b, prompt)
    ensures !Contains(a + ("\n" + b), prompt)
  {
    var s := a + ("\n" + b);
    forall q: nat ensures !At(s, q, prompt) {
      if q + |prompt| <= |a| {
        assert s == "" + (a + ("\n" + b));
        PartOf(s, "", a, "\n" + b, q, prompt);
      } else if q <= |a| {
        EndsInNewline(s, q, prompt, |a|);
      } else if q + |prompt| <= |s| {
        assert s == (a + "\n") + (b + "");
        PartOf(s, a + "\n", b, "", q, prompt);
      }
    }
    var i := IndexOf(s, prompt);
  }

  lemma AnswerIsFramed(text: string, stray: string, anchor: string, shown: string, prompt: string, blanks: string)
    requires Answer(text, stray, anchor, shown, prompt, blanks)
    ensures var k := IndexOf(shown, anchor);
            Framed(text, anchor, prompt, stray + shown[..k], shown[k..], blanks)
  {
    hide Harmless, At, IsPrompt;
    var k := IndexOf(shown, anchor);
    var rest := (shown + prompt) + blanks;
    assert shown <= rest;
    IndexOfPrefix(shown, rest, anchor);
    AnchorAfterStray(stray, rest, anchor);
    PromptOnlyAtEnd(shown[k..], prompt);
    assert shown == shown[..k] + shown[k..];
    Regroup(stray, shown[..k], shown[k..], prompt, blanks);
  }

  lemma SuffixLacks(s: string, k: nat, sub: string)
    requires k <= |s| && !Contains(s, sub)
    ensures !Contains(s[k..], sub)
  {
    forall q: nat ensures !At(s[k..], q, sub) {
      if q + |sub| <= |s[k..]| {
        assert s[k..][q..q + |sub|] == s[k + q..k + q + |sub|];
        assert !At(s, k + q, sub);
      }
    }
    var i := IndexOf(s[k..], sub);
  }

  lemma Regroup(a: string, b: string, c: string, d: string, e: string)
    ensures a + (((b + c) + d) + e) == (a + b) + ((c + d) + e)
  {}

  lemma FirstLineCleaned(line: string, body: string, anchor: string)
    requires '\n' !in line && Contains(line, anchor)
    ensures CleanOutput(line + ("\n" + body), anchor) == TrimSpace(body)
  {
    assert line + ("\n" + body) == line + "\n" + body;
    SplitFirst(line, body);
    assert ([line] + Split(body))[1..] == Split(body);
    JoinSplit(body);
  }

  /** The line of the first anchor goes, what follows it stays. */
  lemma AnchorLineCleaned(shown: string, anchor: string, line: string, body: string)
    requires Contains(shown, anchor) && '\n' !in line && Contains(line, anchor)
    requires shown[IndexOf(shown, anchor)..] == line + ("\n" + body)
    ensures Response(shown, anchor) == TrimSpace(body)
  {
    FirstLineCleaned(line, body, anchor);
  }

  /** What cleaning does to an output of one line, and to one of more: the first line goes
      if it holds the anchor, and only then; the rest is trimmed. */
  lemma CleanedExactly(line: string, rest: string, anchor: string)
    requires '\n' !in line
    ensures CleanOutput(line, anchor) == if Contains(line, anchor) then "" else TrimSpace(line)
    ensures CleanOutput(line + "\n" + rest, anchor)
         == TrimSpace(if Contains(line, anchor) then rest else line + "\n" + rest)
  {
    hide Contains, TrimSpaceLeft, TrimSpaceRight;
    OneLine(line);
    SplitFirst(line, rest);
    JoinSplit(rest);
    JoinSplit(line + "\n" + rest);
    assert [line][1..] == [] && ([line] + Split(rest))[1..] == Split(rest);
    assert TrimSpace("") == "";
  }

  lemma OneLine(line: string)
    requires '\n' !in line
    ensures Split(line) == [line]
  {
    forall q: nat ensures !At(line, q, "\n") {
      AtPointwise(line, q, "\n");
      assert q < |line| ==> line[q] in line;
    }
    assert IndexOf(line, "\n") < 0;
  }

  /** With the echo on one line, exactly the echo goes and the response stays. */
  lemma ResponseCleaned(cmd: string, body: string)
    requires '\n' !in cmd
    ensures Contains(cmd + ("\n" + body), LastToken(cmd))
    ensures Response(cmd + ("\n" + body), LastToken(cmd)) == TrimSpace(body)
  {
    hide CleanOutput, LastToken, TrimSpace;
    var anchor, shown := LastToken(cmd), cmd + ("\n" + body);
    LastTokenOccurs(cmd);
    assert cmd <= shown;
    IndexOfPrefix(cmd, shown, anchor);
    var k := IndexOf(cmd, anchor);
    var line := cmd[k..];
    assert line[0..|anchor|] == cmd[k..k + |anchor|];
    assert At(line, 0, anchor);
    assert shown[k..] == line + ("\n" + body);
    AnchorLineCleaned(shown, anchor, line, body);
  }

  /** One call of Run against an answering device returns exactly the response,
      and what it leaves unread shows nothing but blanks. */
  lemma RunReturnsResponse(s: Shell, cmd: string, io: Io, stray: string, shown: string, blanks: string)
    requires io.arrived <= |s.chunks| && io.writeOk && s.open
    requires io.patience >= |s.chunks[io.arrived..] + io.reply|
    requires Answer(Visible(Flat(s.chunks[io.arrived..] + io.reply)), stray, LastToken(cmd), shown, s.prompt, blanks)
    ensures var end := RunStep(s, cmd, io);
            end.result == Output(Response(shown, LastToken(cmd)))
            && end.shell.open && end.shell.prompt == s.prompt && end.shell.buf == ""
            && end.shell.sent == s.sent + [cmd + "\n"]
            && |end.shell.chunks| <= |s.chunks[io.arrived..] + io.reply|
            && end.shell.chunks == (s.chunks[io.arrived..] + io.reply)[|s.chunks[io.arrived..]
                + io.reply| - |end.shell.chunks|..]
            && AllBlank(Visible(Flat(end.shell.chunks)))
  {
    hide Visible, Flat, CleanOutput, LastToken, Framed, Wait, IndexOf, AllBlank, Harmless, IsPrompt;
    var chunks := s.chunks[io.arrived..] + io.reply;
    var anchor := LastToken(cmd);
    AnswerIsFramed(Visible(Flat(chunks)), stray, anchor, shown, s.prompt, blanks);
    var k := IndexOf(shown, anchor);
    assert "" + Flat(chunks) == Flat(chunks);
    WaitIndependentOfChunks("", chunks, io.patience, anchor, s.prompt, stray + shown[..k], shown[k..], blanks);
  }
}
