/** Whole dialogues between a session and a device: sequences of commands,
    timeouts answered with Ctrl-C, and the login. */
module Dialogue {
  import opened Text
  import opened Framing
  import opened Session
  import opened Exchange

  // ---- What a success leaves unread ---------------------------------------------

  /** Bytes that show nothing but blanks wherever they are cut. */
  predicate Quiet(s: string) { forall i :: 0 <= i < |s| ==> IsBlank(s[i]) || s[i] == '\r' }

  lemma {:induction false} QuietBlank(s: string)
    requires Quiet(s)
    ensures AllBlank(RemoveCR(s))
  {
    if s != "" {
      QuietBlank(s[1..]);
    }
  }

  /** No control sequence swallows a closing bracket. */
  lemma {:induction false} ClosingStripped(s: string, i: nat)
    requires i < |s| && IsClosing(s[i])
    ensures s[i] in StripCsi(s)
    decreases |s|
  {
    var n := CsiLength(s);
    if n > 0 {
      assert i >= n by {
        assert forall k :: 2 <= k < n - 1 ==> s[2..][k - 2] == s[k];
      }
      assert s[n..][i - n] == s[i];
      ClosingStripped(s[n..], i - n);
    } else if i > 0 {
      ClosingStripped(s[1..], i - 1);
    }
  }

  lemma {:induction false} KeptByRemoveCR(s: string, c: char)
    requires c in s && c != '\r'
    ensures c in RemoveCR(s)
  {
    if s[0] != c {
      KeptByRemoveCR(s[1..], c);
    }
  }

  lemma {:induction false} FlatSuffix(chunks: seq<string>, k: nat)
    requires k <= |chunks|
    ensures |Flat(chunks[k..])| <= |Flat(chunks)|
    ensures Flat(chunks[k..]) == Flat(chunks)[|Flat(chunks)| - |Flat(chunks[k..])|..]
  {
    assert chunks == chunks[..k] + chunks[k..];
    FlatAppend(chunks[..k], chunks[k..]);
  }

  predicate IsSuffix(q: string, s: string) { |q| <= |s| && q == s[|s| - |q|..] }

  /** What shows only blanks after a final bracket lies in the tail behind it. */
  lemma LeftoverInTail(a: string, tail: string, q: string)
    requires a != "" && IsClosing(a[|a| - 1])
    requires IsSuffix(q, a + tail) && AllBlank(Visible(q))
    ensures IsSuffix(q, tail)
  {
    hide Visible, AllBlank, IsClosing;
    if |q| <= |tail| {
      assert q == tail[|tail| - |q|..];
    } else {
      var k := |q| - |tail| - 1;
      assert q[k] == a[|a| - 1];
      ClosingIsSeen(q, k);
    }
  }

  lemma ClosingIsSeen(q: string, k: nat)
    requires k < |q| && IsClosing(q[k])
    ensures !AllBlank(Visible(q))
  {
    ClosingStripped(q, k);
    KeptByRemoveCR(StripCsi(q), q[k]);
  }

  lemma SuffixOfSuffix(r: string, q: string, s: string)
    requires IsSuffix(r, q) && IsSuffix(q, s)
    ensures IsSuffix(r, s)
  {
    assert r == s[|s| - |q|..][|q| - |r|..];
  }

  // ---- Answered commands ----------------------------------------------------------

  /** One command and what the device sends for it: strays, the answer, and a tail
      that shows only blanks. `shown` is what the answer shows in front of the
      prompt: the echo, on one line or wrapped, and the response. */
  datatype Turn = Turn(cmd: string, io: Io, strays: string, answer: string, tail: string, shown: string)

  /** The device keeps to the protocol: what it shows holds the anchor, behind the
      first anchor comes the prompt and none before it, and the prompt's bracket is
      the last byte of the answer. */
  ghost predicate Honest(t: Turn, prompt: string) {
    && t.io.writeOk
    && Flat(t.io.reply) == t.strays + (t.answer + t.tail)
    && Settled(t.strays)
    && Visible(t.answer) == t.shown + prompt
    && t.answer != "" && IsClosing(t.answer[|t.answer| - 1])
    && AllBlank(Visible(t.tail))
    && Contains(t.shown, LastToken(t.cmd))
    && !Contains(t.shown[IndexOf(t.shown, LastToken(t.cmd))..], prompt)
    && IsPrompt(prompt)
  }

  /** The timer outlasts the answer. */
  predicate Timely(s: Shell, t: Turn) {
    t.io.arrived <= |s.chunks| && t.io.patience >= |s.chunks[t.io.arrived..] + t.io.reply|
  }

  /** What is still unread when the command is sent, up to its echo, neither holds
      the anchor nor leaves an escape sequence open. */
  ghost predicate CleanStart(s: Shell, io: Io, strays: string, cmd: string) {
    io.arrived <= |s.chunks| && Clean(Flat(s.chunks[io.arrived..]), strays, LastToken(cmd))
  }

  ghost predicate Clean(unread: string, strays: string, anchor: string) {
    Settled(unread + strays) && Harmless(Visible(unread + strays), anchor)
  }

  lemma AnswerVisible(answer: string, tail: string, prompt: string, shown: string)
    requires Visible(answer) == shown + prompt && IsPrompt(prompt)
    ensures Settled(answer) && Visible(answer + tail) == (shown + prompt) + Visible(tail)
  {
    PromptEnd(prompt);
    assert (shown + prompt)[|shown + prompt| - 1] == prompt[|prompt| - 1];
    VisibleEndsSettled(answer);
    VisibleAppend(answer, tail);
  }

  lemma TurnIsAnswer(s: Shell, t: Turn)
    requires Honest(t, s.prompt) && Timely(s, t) && CleanStart(s, t.io, t.strays, t.cmd)
    ensures var unread := Flat(s.chunks[t.io.arrived..]);
            Answer(Visible(Flat(s.chunks[t.io.arrived..] + t.io.reply)), Visible(unread + t.strays),
                   LastToken(t.cmd), t.shown, s.prompt, Visible(t.tail))
  {
    hide Visible, Settled, Harmless, Contains, IsPrompt, LastToken;
    var unread := Flat(s.chunks[t.io.arrived..]);
    FlatAppend(s.chunks[t.io.arrived..], t.io.reply);
    assert unread + (t.strays + (t.answer + t.tail)) == (unread + t.strays) + (t.answer + t.tail);
    VisibleAppend(unread + t.strays, t.answer + t.tail);
    AnswerVisible(t.answer, t.tail, s.prompt, t.shown);
  }

  /** The unread rest of a turn lies in the tail behind the answer. */
  lemma TurnLeftover(unread: seq<string>, t: Turn, k: nat)
    requires Flat(t.io.reply) == t.strays + (t.answer + t.tail)
    requires t.answer != "" && IsClosing(t.answer[|t.answer| - 1])
    requires k <= |unread + t.io.reply| && AllBlank(Visible(Flat((unread + t.io.reply)[k..])))
    ensures IsSuffix(Flat((unread + t.io.reply)[k..]), t.tail)
  {
    hide Visible, AllBlank;
    var chunks := unread + t.io.reply;
    FlatSuffix(chunks, k);
    FlatAppend(unread, t.io.reply);
    var a := Flat(unread) + (t.strays + t.answer);
    assert Flat(chunks) == a + t.tail;
    assert a[|a| - 1] == t.answer[|t.answer| - 1];
    LeftoverInTail(a, t.tail, Flat(chunks[k..]));
  }

  lemma HonestParts(s: Shell, t: Turn)
    requires Honest(t, s.prompt) && Timely(s, t)
    ensures t.io.writeOk && t.io.arrived <= |s.chunks|
    ensures t.io.patience >= |s.chunks[t.io.arrived..] + t.io.reply|
    ensures Flat(t.io.reply) == t.strays + (t.answer + t.tail)
    ensures t.answer != "" && IsClosing(t.answer[|t.answer| - 1])
    ensures Contains(t.shown, LastToken(t.cmd))
  {}

  /** One answered command: exactly its own response, and only bytes of its own
      tail left for the next one. */
  lemma AnsweredTurn(s: Shell, t: Turn)
    requires s.open && Honest(t, s.prompt) && Timely(s, t) && CleanStart(s, t.io, t.strays, t.cmd)
    ensures Contains(t.shown, LastToken(t.cmd))
    ensures var end := RunStep(s, t.cmd, t.io);
            end.result == Output(Response(t.shown, LastToken(t.cmd)))
            && end.shell.prompt == s.prompt && end.shell.open
            && IsSuffix(Flat(end.shell.chunks), t.tail)
  {
    hide Visible, Settled, RunStep, Answer, CleanStart, IsPrompt, Contains, Flat, AllBlank, LastToken, Response;
    hide IsClosing, Honest, Timely, IsSuffix;
    HonestParts(s, t);
    var before := s.chunks[t.io.arrived..];
    TurnIsAnswer(s, t);
    RunReturnsResponse(s, t.cmd, t.io, Visible(Flat(before) + t.strays), t.shown, Visible(t.tail));
    var left := RunStep(s, t.cmd, t.io).shell.chunks;
    TurnLeftover(before, t, |before + t.io.reply| - |left|);
  }

  // ---- Interrupted commands ----------------------------------------------------------

  /** A command the device does not answer in time: what it has sent when the timer
      fires, what it sends for Ctrl-C up to the prompt, and what it sends later. */
  datatype Hang = Hang(cmd: string, io: Io, strays: string, hung: string, recovery: string, late: string)

  /** No text that ends with a beginning of `shown`, short of the whole, ends in the
      prompt. */
  ghost predicate NotBack(text: string, shown: string, prompt: string) {
    forall v: string :: v < shown ==> !EndsWith(TrimBlankRight(text + v), prompt)
  }

  /** Until the timer fires the prompt does not follow the anchor. Ctrl-C is answered
      with something that ends in the prompt; later the device sends nothing to be
      seen, or something that ends in the prompt again. */
  ghost predicate Recovers(h: Hang, prompt: string) {
    && h.io.writeOk
    && Flat(h.io.reply) == h.strays + h.hung && Flat(h.io.afterCtrlC) == h.recovery + h.late
    && Settled(h.strays) && Settled(h.hung)
    && Unanswered(Visible(h.hung), LastToken(h.cmd), prompt)
    && BringsPrompt(h.recovery, prompt)
    && EndsWith(TrimBlankRight(prompt + Visible(h.late)), prompt)
    && IsPrompt(prompt)
  }

  /** The anchor is not shown, or no prompt behind it. */
  ghost predicate Unanswered(shown: string, anchor: string, prompt: string) {
    Contains(shown, anchor) ==> !Contains(shown[IndexOf(shown, anchor)..], prompt)
  }

  /** Something that shows the prompt at its end, whose bracket is the last byte. */
  ghost predicate BringsPrompt(recovery: string, prompt: string) {
    && recovery != "" && IsClosing(recovery[|recovery| - 1])
    && EndsWith(Visible(recovery), prompt)
  }

  /** Behind `unread`, what the device shows does not end in the prompt before its
      answer to Ctrl-C is complete. */
  ghost predicate BackOnlyThen(unread: string, h: Hang, prompt: string) {
    NotBack(Visible(unread + h.strays) + Visible(h.hung), Visible(h.recovery), prompt)
  }

  /** The timer fires when what the device has sent has been received, and the
      second timer outlasts the answer to Ctrl-C. */
  predicate Overdue(s: Shell, h: Hang) {
    && h.io.arrived <= |s.chunks| && h.io.patience == |s.chunks[h.io.arrived..] + h.io.reply|
    && h.io.ctrlCPatience >= |h.io.afterCtrlC|
  }

  lemma SettledAppend(a: string, b: string)
    requires Settled(a) && Settled(b)
    ensures Settled(a + b)
  {
    forall i | 0 <= i < |a + b| ensures !Unfinished((a + b)[i..]) {
      if i < |a| {
        assert (a + b)[i..] == a[i..] + b;
        OpenBefore(a[i..], b);
      } else {
        assert (a + b)[i..] == b[i - |a|..];
      }
    }
  }

  /** What an open escape sequence begins with is an open escape sequence. */
  lemma OpenBefore(u: string, v: string)
    requires u != ""
    ensures Unfinished(u + v) ==> Unfinished(u)
  {
    var s := u + v;
    if |u| >= 2 {
      assert s[2..] == u[2..] + v;
      if ParameterRun(u[2..]) < |u[2..]| {
        ParameterRunStops(u[2..], v);
      }
    }
  }

  /** A suffix of settled text is settled. */
  lemma SettledSuffix(a: string, b: string)
    requires Settled(a + b)
    ensures Settled(b)
  {
    forall i | 0 <= i < |b| ensures !Unfinished(b[i..]) {
      assert (a + b)[|a| + i..] == b[i..];
    }
  }

  lemma EndsInside(x: string, sub: string)
    requires !Contains(x, sub)
    ensures !EndsWith(TrimBlankRight(x), sub)
  {
    var t := TrimBlankRight(x);
    if EndsWith(t, sub) {
      PrefixEnds(t, x, sub);
    }
  }

  /** While a command hangs, no prefix of what arrives completes it. */
  lemma HungNotCompleted(start: string, hung: string, p: string, prompt: string, anchor: string)
    requires Settled(start) && Harmless(Visible(start), anchor) && IsPrompt(prompt)
    requires Unanswered(Visible(hung), anchor, prompt) && p <= start + hung
    ensures Completed(Visible(p), prompt, anchor).None?
  {
    hide Visible, Harmless, IsPrompt, Unanswered;
    if !Settled(p) {
      OpenEscapeShows(p);
      OpenEscapeNotCompleted(Visible(p), prompt, anchor);
    } else {
      var q := (start + hung)[|p|..];
      assert p + q == start + hung;
      VisibleAppend(p, q);
      VisibleAppend(start, hung);
      HungText(Visible(start), Visible(hung), Visible(p), Visible(q), prompt, anchor);
    }
  }

  lemma HungText(stray: string, shown: string, text: string, rest: string, prompt: string, anchor: string)
    requires Harmless(stray, anchor) && Unanswered(shown, anchor, prompt) && text + rest == stray + shown
    ensures Completed(text, prompt, anchor).None?
  {
    hide Harmless, EndsWith, IndexOf, At, TrimBlankRight;
    var i := IndexOf(text, anchor);
    if i >= 0 {
      assert text <= stray + shown;
      IndexOfPrefix(text, stray + shown, anchor);
      AnchorNotInStray(stray, shown, anchor);
      var k := i - |stray|;
      AtBehind(stray, shown, k, anchor);
      assert At(shown, k, anchor);
      AnchorAfterStray(stray, shown, anchor);
      HungPart(stray, shown, text, rest, i);
      assert shown[k..][0..|text| - i] == shown[k..k + (|text| - i)];
      PartLacks(shown[k..], 0, |text| - i, prompt);
      EndsInside(text[i..], prompt);
    }
  }

  lemma HungPart(stray: string, shown: string, text: string, rest: string, i: nat)
    requires text + rest == stray + shown && |stray| <= i <= |text|
    ensures |text| - |stray| <= |shown|
    ensures text[i..] == shown[i - |stray|..i - |stray| + (|text| - i)]
  {
    forall k | 0 <= k < |text| - i ensures text[i..][k] == shown[i - |stray| + k] {
      assert (text + rest)[i + k] == (stray + shown)[i + k];
    }
  }

  lemma PartLacks(s: string, k: nat, n: nat, sub: string)
    requires k + n <= |s| && !Contains(s, sub)
    ensures !Contains(s[k..k + n], sub)
  {
    var x := s[k..k + n];
    forall q: nat ensures !At(x, q, sub) {
      AtPointwise(x, q, sub);
      AtPointwise(s, k + q, sub);
      assert !At(s, k + q, sub);
      assert forall j :: 0 <= j < |x| ==> x[j] == s[k + j];
    }
    var i := IndexOf(x, sub);
  }

  /** With nothing completed the timer fires with everything received. */
  lemma {:induction false} WaitExpires(buf: string, chunks: seq<string>, prompt: string, anchor: string)
    requires forall p: string :: p <= buf + Flat(chunks) ==> Completed(Visible(p), prompt, anchor).None?
    ensures Wait(buf, chunks, prompt, |chunks|, anchor) == WaitEnd(Expired, buf + Flat(chunks), [])
    decreases |chunks|
  {
    hide Visible, Completed;
    assert buf <= buf + Flat(chunks);
    if chunks == [] {
      assert buf + Flat(chunks) == buf;
    } else {
      assert buf + Flat(chunks) == (buf + chunks[0]) + Flat(chunks[1..]);
      WaitExpires(buf + chunks[0], chunks[1..], prompt, anchor);
    }
  }

  /** Waiting stops at a boundary that completes the text, and not before the
      first `m` bytes have arrived if nothing shorter does. */
  lemma {:induction false} WaitStops(buf: string, chunks: seq<string>, prompt: string, patience: nat, anchor: string,
      m: nat)
    requires forall p: string :: p <= buf + Flat(chunks) && |buf| <= |p| < m ==>
        Completed(Visible(p), prompt, anchor).None?
    requires Completed(Visible(buf + Flat(chunks)), prompt, anchor).Some? && patience >= |chunks|
    requires m <= |buf + Flat(chunks)|
    ensures var end := Wait(buf, chunks, prompt, patience, anchor);
            end.result.Ready? && end.buf == "" && |end.chunks| <= |chunks|
            && end.chunks == chunks[|chunks| - |end.chunks|..]
            && |Flat(end.chunks)| <= |buf + Flat(chunks)| - m
    decreases |chunks|
  {
    hide Visible, Completed;
    assert buf <= buf + Flat(chunks);
    if chunks == [] {
      assert buf + Flat(chunks) == buf;
    } else if Completed(Visible(buf), prompt, anchor).None? {
      assert buf + Flat(chunks) == (buf + chunks[0]) + Flat(chunks[1..]);
      WaitStops(buf + chunks[0], chunks[1..], prompt, patience - 1, anchor, m);
    }
  }

  lemma {:induction false} TrimBehind(a: string, y: string)
    requires TrimBlankRight(y) != ""
    ensures TrimBlankRight(a + y) == a + TrimBlankRight(y)
  {
    if IsBlank(y[|y| - 1]) {
      assert (a + y)[..|a + y| - 1] == a + y[..|y| - 1];
      TrimBehind(a, y[..|y| - 1]);
    }
  }

  lemma {:induction false} TrimBehindBlank(a: string, y: string)
    requires TrimBlankRight(y) == ""
    ensures TrimBlankRight(a + y) == TrimBlankRight(a)
  {
    if y == "" {
      assert a + y == a;
    } else {
      assert (a + y)[..|a + y| - 1] == a + y[..|y| - 1];
      TrimBehindBlank(a, y[..|y| - 1]);
    }
  }

  lemma NotInNewText(x: string, y: string, text: string, prompt: string)
    requires y <= text + prompt && |y| < |text + prompt| && IsPrompt(prompt) && !Contains(text, prompt)
    requires |x + y| - |prompt| >= |x|
    ensures !EndsWith(x + y, prompt)
  {
    hide IsPrompt, Contains;
    PromptOnlyAtEnd(text, prompt);
    if EndsWith(x + y, prompt) {
      assert (x + y)[|x + y| - |prompt|..] == y[|y| - |prompt|..];
      PrefixEnds(y, text + prompt, prompt);
    }
  }

  lemma NotAcrossNewline(x: string, y: string, prompt: string)
    requires y != "" && y[0] == '\n' && 0 <= |x + y| - |prompt| < |x| && IsPrompt(prompt)
    ensures !EndsWith(x + y, prompt)
  {
    hide IsPrompt;
    var q := |x + y| - |prompt|;
    assert (x + y)[|x|] == '\n';
    EndsInNewline(x + y, q, prompt, |x|);
    assert (x + y)[q..] == (x + y)[q..q + |prompt|];
  }

  /** The text ends, blanks aside, in something that is not a closing bracket. */
  ghost predicate EndsOpen(text: string) {
    var t := TrimBlankRight(text); t != "" && !IsClosing(t[|t| - 1])
  }

  /** In front of the whole prompt on its new line, no text ends in the prompt. */
  lemma NotYetRecovered(x: string, v: string, text: string, prompt: string)
    requires EndsOpen(x) && IsPrompt(prompt)
    requires text != "" && text[0] == '\n' && !Contains(text, prompt)
    requires v <= text + prompt && |v| < |text + prompt|
    ensures !EndsWith(TrimBlankRight(x + v), prompt)
  {
    hide IsPrompt, Contains;
    PromptEnd(prompt);
    var y := TrimBlankRight(v);
    if y == "" {
      TrimBehindBlank(x, v);
      var t := TrimBlankRight(x);
      LastCharacter(t, t[|t| - 1], prompt);
    } else {
      TrimBehind(x, v);
      assert y[0] == (text + prompt)[0] == '\n';
      assert y <= text + prompt;
      if |x + y| - |prompt| >= |x| {
        NotInNewText(x, y, text, prompt);
      } else if |x + y| >= |prompt| {
        NotAcrossNewline(x, y, prompt);
      }
    }
  }

  /** Only the last byte of the recovery completes the prompt. */
  lemma RecoveryNotEarly(b: string, recovery: string, r: string, prompt: string)
    requires Settled(b) && NotBack(Visible(b), Visible(recovery), prompt) && IsPrompt(prompt)
    requires r <= recovery && |r| < |recovery| && IsClosing(recovery[|recovery| - 1])
    ensures Completed(Visible(b + r), prompt, "").None?
  {
    hide Visible, IsPrompt, EndsWith, TrimBlankRight;
    var p := b + r;
    if !Settled(p) {
      OpenEscapeShows(p);
      OpenEscapeNotCompleted(Visible(p), prompt, "");
    } else {
      SettledSuffix(b, r);
      var rest := recovery[|r|..];
      assert recovery == r + rest;
      VisibleAppend(b, r);
      VisibleAppend(r, rest);
      assert rest[|rest| - 1] == recovery[|recovery| - 1];
      ClosingShows(rest, |rest| - 1);
      assert Visible(r) < Visible(recovery);
      WithoutAnchor(Visible(p), prompt);
    }
  }

  lemma ClosingShows(s: string, i: nat)
    requires i < |s| && IsClosing(s[i])
    ensures Visible(s) != ""
  {
    ClosingStripped(s, i);
    KeptByRemoveCR(StripCsi(s), s[i]);
  }

  /** With no anchor the whole text counts. */
  lemma WithoutAnchor(text: string, prompt: string)
    ensures Completed(text, prompt, "").Some? <==> EndsWith(TrimBlankRight(text), prompt)
  {
    assert At(text, 0, "");
    assert text[0..] == text;
  }

  lemma RecoveredAtEnd(b: string, recovery: string, late: string, prompt: string)
    requires Settled(b) && BringsPrompt(recovery, prompt) && IsPrompt(prompt)
    requires EndsWith(TrimBlankRight(prompt + Visible(late)), prompt)
    ensures Completed(Visible(b + (recovery + late)), prompt, "").Some?
  {
    hide Visible, IsPrompt, TrimBlankRight;
    PromptEnd(prompt);
    var text := Visible(recovery)[..|Visible(recovery)| - |prompt|];
    AnswerVisible(recovery, late, prompt, text);
    VisibleAppend(b, recovery + late);
    var a, y := Visible(b) + text, prompt + Visible(late);
    assert Visible(b) + ((text + prompt) + Visible(late)) == a + y;
    TrimBehind(a, y);
    EndsBehind(a, TrimBlankRight(y), prompt);
    WithoutAnchor(Visible(b + (recovery + late)), prompt);
  }

  lemma EndsBehind(a: string, y: string, sub: string)
    requires EndsWith(y, sub)
    ensures EndsWith(a + y, sub)
  {
    assert (a + y)[|a + y| - |sub|..] == y[|y| - |sub|..];
  }

  lemma StillOpen(stray: string, hung: string)
    requires EndsOpen(hung)
    ensures EndsOpen(stray + hung)
  {
    TrimBehind(stray, hung);
  }

  /** Enough for that: what hangs does not end in a closing bracket, and Ctrl-C is
      answered on a new line. */
  lemma OpenComesBack(unread: string, h: Hang, text: string, prompt: string)
    requires EndsOpen(Visible(h.hung)) && IsPrompt(prompt)
    requires text != "" && text[0] == '\n' && !Contains(text, prompt) && Visible(h.recovery) == text + prompt
    ensures BackOnlyThen(unread, h, prompt)
  {
    hide Visible, EndsOpen, IsPrompt, Contains, EndsWith, TrimBlankRight;
    var x := Visible(unread + h.strays) + Visible(h.hung);
    StillOpen(Visible(unread + h.strays), Visible(h.hung));
    forall v: string | v < text + prompt ensures !EndsWith(TrimBlankRight(x + v), prompt) {
      NotYetRecovered(x, v, text, prompt);
    }
  }

  lemma RecoversParts(s: Shell, h: Hang)
    requires Recovers(h, s.prompt) && Overdue(s, h)
    ensures h.io.writeOk && h.io.arrived <= |s.chunks|
    ensures h.io.patience == |s.chunks[h.io.arrived..] + h.io.reply| && h.io.ctrlCPatience >= |h.io.afterCtrlC|
    ensures Flat(h.io.reply) == h.strays + h.hung && Flat(h.io.afterCtrlC) == h.recovery + h.late
    ensures Settled(h.hung) && Unanswered(Visible(h.hung), LastToken(h.cmd), s.prompt)
    ensures BringsPrompt(h.recovery, s.prompt) && IsPrompt(s.prompt)
    ensures EndsWith(TrimBlankRight(s.prompt + Visible(h.late)), s.prompt)
  {}

  lemma HangExpires(s: Shell, h: Hang)
    requires Recovers(h, s.prompt) && Overdue(s, h) && CleanStart(s, h.io, h.strays, h.cmd)
    ensures var chunks := s.chunks[h.io.arrived..] + h.io.reply;
            Wait("", chunks, s.prompt, |chunks|, LastToken(h.cmd)) == WaitEnd(Expired, Flat(chunks), [])
  {
    hide Visible, Completed, LastToken, Harmless, Settled, IsPrompt, Unanswered, BringsPrompt, EndsWith;
    var before, anchor := Flat(s.chunks[h.io.arrived..]), LastToken(h.cmd);
    var chunks := s.chunks[h.io.arrived..] + h.io.reply;
    FlatAppend(s.chunks[h.io.arrived..], h.io.reply);
    assert before + (h.strays + h.hung) == (before + h.strays) + h.hung;
    assert "" + Flat(chunks) == Flat(chunks);
    forall p: string | p <= Flat(chunks) ensures Completed(Visible(p), s.prompt, anchor).None? {
      HungNotCompleted(before + h.strays, h.hung, p, s.prompt, anchor);
    }
    WaitExpires("", chunks, s.prompt, anchor);
  }

  lemma InsideRecovery(b: string, recovery: string, late: string, p: string)
    requires p <= b + (recovery + late) && |b| <= |p| < |b + recovery|
    ensures p == b + p[|b|..] && p[|b|..] <= recovery
  {
    assert forall k :: 0 <= k < |p| ==> p[k] == (b + (recovery + late))[k];
  }

  lemma HangComesBack(h: Hang, b: string, prompt: string)
    requires Settled(b) && NotBack(Visible(b), Visible(h.recovery), prompt)
    requires BringsPrompt(h.recovery, prompt) && IsPrompt(prompt)
    requires EndsWith(TrimBlankRight(prompt + Visible(h.late)), prompt)
    requires Flat(h.io.afterCtrlC) == h.recovery + h.late && h.io.ctrlCPatience >= |h.io.afterCtrlC|
    ensures var end := Wait(b, h.io.afterCtrlC, prompt, h.io.ctrlCPatience, "");
            end.result.Ready? && IsSuffix(Flat(end.chunks), h.late)
  {
    hide Visible, Completed, Settled, IsPrompt, NotBack, EndsWith, TrimBlankRight, IsSuffix, Wait;
    var all := b + (h.recovery + h.late);
    forall p: string | p <= all && |b| <= |p| < |b + h.recovery| ensures Completed(Visible(p), prompt, "").None? {
      InsideRecovery(b, h.recovery, h.late, p);
      RecoveryNotEarly(b, h.recovery, p[|b|..], prompt);
    }
    RecoveredAtEnd(b, h.recovery, h.late, prompt);
    WaitStops(b, h.io.afterCtrlC, prompt, h.io.ctrlCPatience, "", |b + h.recovery|);
    var end := Wait(b, h.io.afterCtrlC, prompt, h.io.ctrlCPatience, "");
    LateRest(h.io.afterCtrlC, |h.io.afterCtrlC| - |end.chunks|, h.recovery, h.late);
  }

  lemma LateRest(chunks: seq<string>, k: nat, recovery: string, late: string)
    requires k <= |chunks| && Flat(chunks) == recovery + late && |Flat(chunks[k..])| <= |late|
    ensures IsSuffix(Flat(chunks[k..]), late)
  {
    FlatSuffix(chunks, k);
  }

  /** An interrupted command against a device that recovers: a timeout, the session
      still open, and only late output left for the next command. */
  lemma InterruptedTurn(s: Shell, h: Hang)
    requires s.open && Recovers(h, s.prompt) && Overdue(s, h) && CleanStart(s, h.io, h.strays, h.cmd)
    requires BackOnlyThen(Flat(s.chunks[h.io.arrived..]), h, s.prompt)
    ensures var end := RunStep(s, h.cmd, h.io);
            end.result == Failed(true, false)
            && end.shell.prompt == s.prompt && end.shell.open
            && IsSuffix(Flat(end.shell.chunks), h.late)
  {
    hide Visible, LastToken, Wait, Settled, Harmless, IsPrompt, Unanswered, BringsPrompt, EndsWith, IsSuffix, NotBack;
    RecoversParts(s, h);
    HangExpires(s, h);
    var before := Flat(s.chunks[h.io.arrived..]);
    var b := Flat(s.chunks[h.io.arrived..] + h.io.reply);
    FlatAppend(s.chunks[h.io.arrived..], h.io.reply);
    assert b == (before + h.strays) + h.hung;
    SettledAppend(before + h.strays, h.hung);
    VisibleAppend(before + h.strays, h.hung);
    HangComesBack(h, b, s.prompt);
    assert [] + h.io.afterCtrlC == h.io.afterCtrlC;
  }

  // ---- Sequences ------------------------------------------------------------------

  /** A dialogue: commands that are answered, and commands that time out and are
      interrupted with Ctrl-C. */
  datatype Step = Answered(turn: Turn) | Interrupted(hang: Hang)

  function StepCmd(p: Step): string { if p.Answered? then p.turn.cmd else p.hang.cmd }

  function StepIo(p: Step): Io { if p.Answered? then p.turn.io else p.hang.io }

  function StepStrays(p: Step): string { if p.Answered? then p.turn.strays else p.hang.strays }

  /** What the device may still send once the step is over for the session. */
  function StepTail(p: Step): string { if p.Answered? then p.turn.tail else p.hang.late }

  /** What Run is to return for the step. */
  ghost predicate Gives(p: Step, r: RunResult) {
    match p
    case Answered(t) => Contains(t.shown, LastToken(t.cmd)) && r == Output(Response(t.shown, LastToken(t.cmd)))
    case Interrupted(_) => r == Failed(true, false)
  }

  /** Each answered command meets an honest device and a clean start; each other
      command ends in a timeout that Ctrl-C recovers from. */
  ghost predicate Follows(s: Shell, steps: seq<Step>)
    decreases |steps|
  {
    steps != [] ==>
      && StepIo(steps[0]).arrived <= |s.chunks|
      && match steps[0] {
           case Answered(t) => s.open && Honest(t, s.prompt) && Timely(s, t) && CleanStart(s, t.io, t.strays, t.cmd)
           case Interrupted(h) => RunStep(s, h.cmd, h.io).result == Failed(true, false)
         }
      && Follows(RunStep(s, StepCmd(steps[0]), StepIo(steps[0])).shell, steps[1..])
  }

  /** The results of a dialogue, one Run after the other. */
  ghost function Results(s: Shell, steps: seq<Step>): seq<RunResult>
    requires Follows(s, steps)
    decreases |steps|
  {
    if steps == [] then []
    else
      var end := RunStep(s, StepCmd(steps[0]), StepIo(steps[0]));
      [end.result] + Results(end.shell, steps[1..])
  }

  lemma FirstStep(s: Shell, steps: seq<Step>)
    requires Follows(s, steps) && steps != []
    ensures Gives(steps[0], RunStep(s, StepCmd(steps[0]), StepIo(steps[0])).result)
  {
    hide RunStep, Honest, Timely, CleanStart, Response, Contains;
    if steps[0].Answered? {
      AnsweredTurn(s, steps[0].turn);
    }
  }

  /** Over any dialogue the k-th answered command returns exactly the k-th
      response: no echo, no prompt, and no text of another command. */
  lemma {:induction false} DialogueExact(s: Shell, steps: seq<Step>)
    requires Follows(s, steps)
    ensures |Results(s, steps)| == |steps|
    ensures forall k :: 0 <= k < |steps| ==> Gives(steps[k], Results(s, steps)[k])
    decreases |steps|
  {
    hide RunStep, Honest, Timely, CleanStart, Gives;
    if steps != [] {
      var end := RunStep(s, StepCmd(steps[0]), StepIo(steps[0]));
      DialogueExact(end.shell, steps[1..]);
      var rest := Results(end.shell, steps[1..]);
      assert Results(s, steps) == [end.result] + rest;
      forall k | 0 <= k < |steps| ensures Gives(steps[k], ([end.result] + rest)[k]) {
        if k == 0 {
          FirstStep(s, steps);
        } else {
          assert steps[1..][k - 1] == steps[k];
        }
      }
    }
  }

  /** The session after a dialogue. */
  ghost function After(s: Shell, steps: seq<Step>): Shell
    requires Follows(s, steps)
    decreases |steps|
  {
    if steps == [] then s else After(RunStep(s, StepCmd(steps[0]), StepIo(steps[0])).shell, steps[1..])
  }

  /** The bytes a dialogue sends: each command, in order, and Ctrl-C behind each one
      that was interrupted. */
  function Bytes(steps: seq<Step>): seq<string> {
    if steps == [] then []
    else
      (match steps[0]
       case Answered(t) => [t.cmd + "\n"]
       case Interrupted(h) => [h.cmd + "\n", "\U{03}"])
      + Bytes(steps[1..])
  }

  lemma FirstSends(s: Shell, steps: seq<Step>)
    requires Follows(s, steps) && steps != []
    ensures RunStep(s, StepCmd(steps[0]), StepIo(steps[0])).shell.sent == s.sent + Bytes(steps[..1])
  {
    hide RunStep, Honest, Timely, CleanStart, Response, Contains;
    RunSends(s, StepCmd(steps[0]), StepIo(steps[0]));
    FirstStep(s, steps);
    match steps[0]
    case Answered(t) => AnsweredSends(s, t);
    case Interrupted(h) => RefusedIsNoTimeout(s, h.cmd, h.io);
  }

  lemma AnsweredSends(s: Shell, t: Turn)
    requires s.open && Honest(t, s.prompt)
    ensures s.open && t.io.writeOk
  {}

  lemma RefusedIsNoTimeout(s: Shell, cmd: string, io: Io)
    requires io.arrived <= |s.chunks| && RunStep(s, cmd, io).result == Failed(true, false)
    ensures s.open && io.writeOk
  {}

  /** What is sent over a whole dialogue is exactly that, and nothing else. */
  lemma {:induction false} DialogueSends(s: Shell, steps: seq<Step>)
    requires Follows(s, steps)
    ensures After(s, steps).sent == s.sent + Bytes(steps)
    decreases |steps|
  {
    hide RunStep, Honest, Timely, CleanStart, Bytes;
    if steps == [] {
      NothingSent(s);
    } else {
      var next := RunStep(s, StepCmd(steps[0]), StepIo(steps[0])).shell;
      FirstSends(s, steps);
      DialogueSends(next, steps[1..]);
      FirstBytes(steps);
      assert (s.sent + Bytes(steps[..1])) + Bytes(steps[1..]) == s.sent + (Bytes(steps[..1]) + Bytes(steps[1..]));
    }
  }

  lemma FirstBytes(steps: seq<Step>)
    requires steps != []
    ensures Bytes(steps) == Bytes(steps[..1]) + Bytes(steps[1..])
  {
    assert steps[..1][0] == steps[0] && steps[..1][1..] == [];
  }

  lemma NothingSent(s: Shell)
    ensures s.sent + Bytes([]) == s.sent
  {}

  // ---- Conditions on the device alone --------------------------------------------------

  /** Wherever a drain cuts the tail of a step, what is left of it does not spoil
      the next command. */
  ghost predicate Forgotten(tail: string, strays: string, anchor: string) {
    forall q: string :: IsSuffix(q, tail) ==> Clean(q, strays, anchor)
  }

  /** Wherever a drain cuts the tail of a step, what is left of it does not make the
      prompt look back early. */
  ghost predicate ComesBack(tail: string, h: Hang, prompt: string) {
    forall q: string :: IsSuffix(q, tail) ==> BackOnlyThen(q, h, prompt)
  }

  /** What is asked of the device alone: each step by itself, and the tail of each
      step together with the next command. */
  ghost predicate Courteous(tail: string, steps: seq<Step>, prompt: string)
    decreases |steps|
  {
    steps != [] ==>
      && (match steps[0]
          case Answered(t) => Honest(t, prompt)
          case Interrupted(h) => Recovers(h, prompt) && ComesBack(tail, h, prompt))
      && Forgotten(tail, StepStrays(steps[0]), LastToken(StepCmd(steps[0])))
      && Courteous(StepTail(steps[0]), steps[1..], prompt)
  }

  /** Every timer outlasts what it waits for, except where the command hangs. */
  ghost predicate InTime(s: Shell, steps: seq<Step>)
    decreases |steps|
  {
    steps != [] ==>
      && (match steps[0]
          case Answered(t) => Timely(s, t)
          case Interrupted(h) => Overdue(s, h))
      && InTime(RunStep(s, StepCmd(steps[0]), StepIo(steps[0])).shell, steps[1..])
  }

  lemma CourteousStep(s: Shell, tail: string, steps: seq<Step>)
    requires s.open && IsSuffix(Flat(s.chunks), tail) && InTime(s, steps) && Courteous(tail, steps, s.prompt)
        && steps != []
    ensures StepIo(steps[0]).arrived <= |s.chunks|
    ensures match steps[0]
            case Answered(t) => s.open && Honest(t, s.prompt) && Timely(s, t) && CleanStart(s, t.io, t.strays, t.cmd)
            case Interrupted(h) => RunStep(s, h.cmd, h.io).result == Failed(true, false)
    ensures var next := RunStep(s, StepCmd(steps[0]), StepIo(steps[0])).shell;
            next.open && next.prompt == s.prompt && IsSuffix(Flat(next.chunks), StepTail(steps[0]))
  {
    hide RunStep, Honest, Recovers, Clean, IsSuffix, LastToken, Contains, Response, BackOnlyThen;
    var io := StepIo(steps[0]);
    FlatSuffix(s.chunks, io.arrived);
    DrainedSuffix(s.chunks, io.arrived);
    SuffixOfSuffix(Flat(s.chunks[io.arrived..]), Flat(s.chunks), tail);
    match steps[0]
    case Answered(t) => AnsweredTurn(s, t);
    case Interrupted(h) => InterruptedTurn(s, h);
  }

  lemma DrainedSuffix(chunks: seq<string>, k: nat)
    requires k <= |chunks|
    ensures IsSuffix(Flat(chunks[k..]), Flat(chunks))
  {
    FlatSuffix(chunks, k);
  }

  lemma {:induction false} CourteousFollows(s: Shell, tail: string, steps: seq<Step>)
    requires s.open && IsSuffix(Flat(s.chunks), tail) && InTime(s, steps) && Courteous(tail, steps, s.prompt)
    ensures Follows(s, steps)
    decreases |steps|
  {
    hide RunStep, Honest, CleanStart, IsSuffix, Forgotten, Recovers, Timely, Overdue;
    if steps != [] {
      CourteousStep(s, tail, steps);
      CourteousFollows(RunStep(s, StepCmd(steps[0]), StepIo(steps[0])).shell, StepTail(steps[0]), steps[1..]);
    }
  }

  /** Against a device that keeps to the protocol - it answers, or hangs and comes
      back after Ctrl-C - conditions on the device alone make the whole dialogue
      exact, and say what is sent in it, whatever the chunks and however much of the tails each drain drops. */
  lemma HonestDialogueExact(s: Shell, tail: string, steps: seq<Step>)
    requires s.open && IsSuffix(Flat(s.chunks), tail) && InTime(s, steps) && Courteous(tail, steps, s.prompt)
    ensures Follows(s, steps) && |Results(s, steps)| == |steps|
    ensures forall k :: 0 <= k < |steps| ==> Gives(steps[k], Results(s, steps)[k])
    ensures After(s, steps).sent == s.sent + Bytes(steps)
  {
    hide Follows, Results, After, Courteous, InTime, Gives;
    CourteousFollows(s, tail, steps);
    DialogueExact(s, steps);
    DialogueSends(s, steps);
  }

  // ---- Tails that are always forgotten ---------------------------------------------------

  lemma TwoStrays(a: string, b: string, anchor: string)
    requires Harmless(a, anchor) && Harmless(b, anchor)
    ensures Harmless(a + b, anchor)
  {
    hide At;
    AnchorNotInStray(a, b, anchor);
    var i := IndexOf(a + b, anchor);
    if i >= |a| {
      AtBehind(a, b, i - |a|, anchor);
    }
  }

  /** A tail without escape sequences in which the anchor does not occur and which
      ends in a blank or a bracket: prompts, for instance, or blanks. */
  ghost predicate Idle(tail: string, anchor: string) {
    && ESC !in tail && Harmless(RemoveCR(tail), anchor)
  }

  lemma SuffixHarmless(s: string, k: nat, anchor: string)
    requires k <= |s| && Harmless(s, anchor)
    ensures Harmless(s[k..], anchor)
  {
    SuffixLacks(s, k, anchor);
  }

  lemma IdleForgotten(tail: string, strays: string, anchor: string)
    requires Idle(tail, anchor) && Settled(strays) && Harmless(Visible(strays), anchor)
    ensures Forgotten(tail, strays, anchor)
  {
    hide Harmless, Visible;
    forall q: string | IsSuffix(q, tail) ensures Clean(q, strays, anchor) {
      var a := tail[..|tail| - |q|];
      assert tail == a + q;
      RemoveCRAppend(a, q);
      assert RemoveCR(q) == RemoveCR(tail)[|RemoveCR(a)|..];
      SuffixHarmless(RemoveCR(tail), |RemoveCR(a)|, anchor);
      NoEscapeSettled(q);
      VisibleWithoutEscape(q);
      SettledAppend(q, strays);
      VisibleAppend(q, strays);
      TwoStrays(Visible(q), Visible(strays), anchor);
    }
  }

  lemma NoEscapeSettled(q: string)
    requires ESC !in q
    ensures Settled(q)
  {
    forall i | 0 <= i < |q| ensures !Unfinished(q[i..]) {
      assert q[i..][0] == q[i];
    }
  }

  lemma VisibleWithoutEscape(q: string)
    requires ESC !in q
    ensures Visible(q) == RemoveCR(q)
  {
    NoEscapeStripped(q);
  }

  /** Quiet bytes are forgotten by every command whose anchor is a word. */
  lemma QuietForgotten(tail: string, strays: string, anchor: string)
    requires Quiet(tail) && Settled(strays) && Harmless(Visible(strays), anchor)
    ensures Forgotten(tail, strays, anchor)
  {
    hide Visible;
    QuietBlank(tail);
    BlanksHarmless(RemoveCR(tail), anchor) by {
      assert At(Visible(strays), 0, "");
    }
    assert ESC !in tail;
    IdleForgotten(tail, strays, anchor);
  }

  lemma BlanksHarmless(blanks: string, anchor: string)
    requires AllBlank(blanks) && anchor != "" && forall i :: 0 <= i < |anchor| ==> !IsSeparator(anchor[i])
    ensures Harmless(blanks, anchor)
  {
    forall q: nat ensures !At(blanks, q, anchor) {
      AtPointwise(blanks, q, anchor);
      if q < |blanks| {
        assert blanks[q] in blanks;
        assert IsSeparator(blanks[q]);
      }
    }
    var i := IndexOf(blanks, anchor);
    if blanks != "" {
      assert blanks[|blanks| - 1] in blanks;
    }
  }

  // ---- Each step by itself ----------------------------------------------------------------

  /** What is asked of one step by itself, on a device that leaves nothing but blanks
      behind its prompts. */
  ghost predicate Tidy(p: Step, prompt: string) {
    && (match p
        case Answered(t) => Honest(t, prompt)
        case Interrupted(h) => Recovers(h, prompt) && BackOnlyThen("", h, prompt))
    && Settled(StepStrays(p)) && Harmless(Visible(StepStrays(p)), LastToken(StepCmd(p)))
    && Quiet(StepTail(p))
  }

  lemma {:induction false} BlanksTrimmed(blanks: string)
    requires AllBlank(blanks)
    ensures TrimBlankRight(blanks) == ""
  {
    if blanks != "" {
      assert blanks[|blanks| - 1] in blanks;
      BlanksTrimmed(blanks[..|blanks| - 1]);
    }
  }

  /** Blanks in front do not make a prompt. */
  lemma BlanksInFront(blanks: string, text: string, prompt: string)
    requires AllBlank(blanks) && IsPrompt(prompt) && !EndsWith(TrimBlankRight(text), prompt)
    ensures !EndsWith(TrimBlankRight(blanks + text), prompt)
  {
    hide AllBlank, IsPrompt;
    PromptEnd(prompt);
    var y := TrimBlankRight(text);
    if y == "" {
      TrimBehindBlank(blanks, text);
      BlanksTrimmed(blanks);
    } else {
      TrimBehind(blanks, text);
      BlanksLackPrompt(blanks, y, prompt);
    }
  }

  lemma BlanksLackPrompt(blanks: string, y: string, prompt: string)
    requires AllBlank(blanks) && IsPrompt(prompt) && !EndsWith(y, prompt)
    ensures !EndsWith(blanks + y, prompt)
  {
    var s := blanks + y;
    var k := |s| - |prompt|;
    if 0 <= k < |blanks| {
      assert s[k] in blanks;
      assert s[k..][0] != prompt[0];
    } else if k >= |blanks| {
      assert s[k..] == y[|y| - |prompt|..];
    }
  }

  lemma QuietComesBack(tail: string, h: Hang, prompt: string)
    requires Quiet(tail) && Settled(h.strays) && IsPrompt(prompt) && BackOnlyThen("", h, prompt)
    ensures ComesBack(tail, h, prompt)
  {
    hide Visible, IsPrompt, EndsWith, TrimBlankRight, AllBlank, Settled;
    var x := Visible(h.strays) + Visible(h.hung);
    assert "" + h.strays == h.strays;
    forall q: string | IsSuffix(q, tail) ensures BackOnlyThen(q, h, prompt) {
      QuietBlank(q);
      NoEscapeSettled(q);
      VisibleWithoutEscape(q);
      VisibleAppend(q, h.strays);
      forall v: string | v < Visible(h.recovery)
        ensures !EndsWith(TrimBlankRight(Visible(q + h.strays) + Visible(h.hung) + v), prompt)
      {
        BlanksInFront(Visible(q), x + v, prompt);
        assert Visible(q + h.strays) + Visible(h.hung) + v == Visible(q) + (x + v);
      }
    }
  }

  lemma {:induction false} QuietCourteous(tail: string, steps: seq<Step>, prompt: string)
    requires Quiet(tail) && forall k :: 0 <= k < |steps| ==> Tidy(steps[k], prompt)
    ensures Courteous(tail, steps, prompt)
    decreases |steps|
  {
    hide Visible, Honest, Settled, Harmless, Quiet, BackOnlyThen, ComesBack, Forgotten, LastToken, BringsPrompt,
        Unanswered;
    if steps != [] {
      var p := steps[0];
      assert Tidy(p, prompt);
      QuietForgotten(tail, StepStrays(p), LastToken(StepCmd(p)));
      if p.Interrupted? {
        QuietComesBack(tail, p.hang, prompt);
      }
      QuietCourteous(StepTail(p), steps[1..], prompt);
    }
  }

  /** Against a device that leaves nothing but blanks behind its prompts, conditions on
      each step by itself make the whole dialogue exact. */
  lemma QuietDialogueExact(s: Shell, steps: seq<Step>)
    requires s.open && Quiet(Flat(s.chunks)) && InTime(s, steps)
    requires forall k :: 0 <= k < |steps| ==> Tidy(steps[k], s.prompt)
    ensures Follows(s, steps) && |Results(s, steps)| == |steps|
    ensures forall k :: 0 <= k < |steps| ==> Gives(steps[k], Results(s, steps)[k])
  {
    hide Follows, Results, Courteous, InTime, Gives, Tidy, Quiet;
    var left := Flat(s.chunks);
    assert left == left[|left| - |left|..];
    QuietCourteous(left, steps, s.prompt);
    HonestDialogueExact(s, left, steps);
  }

  // ---- When waiting succeeds ----------------------------------------------------------

  /** Waiting succeeds exactly when, at one of the chunk boundaries reached before
      the timer fires, the text is complete. With an empty anchor this is the
      recovery after Ctrl-C: exactly when the prompt comes back in time. */
  lemma {:induction false} WaitSucceedsIff(buf: string, chunks: seq<string>, prompt: string, patience: nat,
      anchor: string)
    ensures Wait(buf, chunks, prompt, patience, anchor).result.Ready? <==>
            exists k :: 0 <= k <= |chunks| && k <= patience
                        && Completed(Visible(buf + Flat(chunks[..k])), prompt, anchor).Some?
    decreases |chunks|
  {
    hide Visible, Completed;
    assert buf + Flat(chunks[..0]) == buf;
    if Completed(Visible(buf), prompt, anchor).None? && patience > 0 && chunks != [] {
      var b, rest := buf + chunks[0], chunks[1..];
      WaitSucceedsIff(b, rest, prompt, patience - 1, anchor);
      forall k | 0 < k <= |chunks| ensures buf + Flat(chunks[..k]) == b + Flat(rest[..k - 1]) {
        assert chunks[..k][1..] == rest[..k - 1];
        assert chunks[..k][0] == chunks[0];
        assert buf + (chunks[0] + Flat(rest[..k - 1])) == b + Flat(rest[..k - 1]);
      }
      if k :| 0 <= k <= |rest| && k <= patience - 1 && Completed(Visible(b + Flat(rest[..k])), prompt, anchor).Some? {
        assert Completed(Visible(buf + Flat(chunks[..k + 1])), prompt, anchor).Some?;
      }
      if k :| 0 <= k <= |chunks| && k <= patience && Completed(Visible(buf + Flat(chunks[..k])), prompt, anchor).Some? {
        assert Completed(Visible(b + Flat(rest[..k - 1])), prompt, anchor).Some?;
      }
    }
  }
}
