/** The repository's test device (remote/fakevrp_test.go) keeps to the protocol that
    the dialogue lemmas ask for: it answers, echoes on one line or wraps its echo,
    hangs until Ctrl-C, and may prompt once more after that. */
module TestDevice {
  import opened Text
  import opened Framing
  import opened Session
  import opened Exchange
  import opened Dialogue

  // ---- What it writes -------------------------------------------------------------------

  /** `strings.ReplaceAll(s, "\n", "\r\n")`. */
  function Crlf(s: string): string {
    if s == "" then ""
    else (if s[0] == '\n' then "\r\n" else [s[0]]) + Crlf(s[1..])
  }

  const CRLF := "\r\n"

  /** wrapEcho: lines of `at` bytes, or one line for 0. */
  function WrapEcho(s: string, at: nat): string
    decreases |s|
  {
    if at == 0 || |s| <= at then s else s[..at] + (CRLF + WrapEcho(s[at..], at))
  }

  /** What the device writes for a command: its terminal echo, the response with
      CRLF line ends, and the prompt. */
  function ShellReply(cmd: string, out: string, prompt: string, at: nat): string {
    (WrapEcho(cmd, at) + CRLF) + ((if out == "" then "" else Crlf(out) + CRLF) + (CRLF + prompt))
  }

  function ShellBody(out: string): string { (if out == "" then "" else out + "\n") + "\n" }

  /** What it shows for the command. */
  function ShellShown(cmd: string, out: string, at: nat): string { WrappedAt(cmd, at) + ("\n" + ShellBody(out)) }

  lemma {:induction false} CrlfRemoved(s: string)
    requires '\r' !in s && ESC !in s
    ensures RemoveCR(Crlf(s)) == s && ESC !in Crlf(s)
  {
    if s != "" {
      CrlfRemoved(s[1..]);
      var head := if s[0] == '\n' then CRLF else [s[0]];
      RemoveCRAppend(head, Crlf(s[1..]));
      NewlineKept();
      NoReturnKept([s[0]]);
    }
  }

  lemma NewlineKept()
    ensures RemoveCR(CRLF) == "\n"
  {
    assert CRLF[1..] == "\n";
    NoReturnKept("\n");
  }

  lemma {:induction false} WrapShows(s: string, at: nat)
    requires '\r' !in s && ESC !in s
    ensures RemoveCR(WrapEcho(s, at)) == WrappedAt(s, at) && ESC !in WrapEcho(s, at)
    decreases |s|
  {
    if at == 0 || |s| <= at {
      NoReturnKept(s);
    } else {
      WrapShows(s[at..], at);
      NoReturnKept(s[..at]);
      NewlineKept();
      RemoveCRAppend(s[..at], CRLF + WrapEcho(s[at..], at));
      RemoveCRAppend(CRLF, WrapEcho(s[at..], at));
    }
  }

  lemma ReplyParts(echo: string, middle: string, prompt: string)
    requires '\r' !in prompt
    ensures RemoveCR((echo + CRLF) + (middle + (CRLF + prompt)))
         == (RemoveCR(echo) + "\n") + (RemoveCR(middle) + ("\n" + prompt))
  {
    NewlineKept();
    NoReturnKept(prompt);
    RemoveCRAppend(echo + CRLF, middle + (CRLF + prompt));
    RemoveCRAppend(echo, CRLF);
    RemoveCRAppend(middle, CRLF + prompt);
    RemoveCRAppend(CRLF, prompt);
  }

  lemma MiddlePart(out: string)
    requires '\r' !in out && ESC !in out
    ensures var middle := if out == "" then "" else Crlf(out) + CRLF;
            RemoveCR(middle) == (if out == "" then "" else out + "\n") && ESC !in middle
  {
    CrlfRemoved(out);
    NewlineKept();
    RemoveCRAppend(Crlf(out), CRLF);
  }

  lemma NoEscapeIn(a: string, b: string, c: string, d: string)
    requires ESC !in a && ESC !in b && ESC !in c && ESC !in d
    ensures ESC !in (a + b) + (c + (b + d))
  {}

  lemma ReplyRegrouped(echo: string, shown: string, prompt: string)
    ensures (echo + "\n") + (shown + ("\n" + prompt)) == (echo + ("\n" + (shown + "\n"))) + prompt
  {}

  lemma ShellReplyVisible(cmd: string, out: string, prompt: string, at: nat)
    requires '\r' !in cmd && '\r' !in out && '\r' !in prompt
    requires ESC !in cmd && ESC !in out && ESC !in prompt
    ensures Visible(ShellReply(cmd, out, prompt, at)) == ShellShown(cmd, out, at) + prompt
  {
    hide RemoveCR, StripCsi, Crlf, WrapEcho, WrappedAt;
    var middle := if out == "" then "" else Crlf(out) + CRLF;
    WrapShows(cmd, at);
    MiddlePart(out);
    NoEscapeIn(WrapEcho(cmd, at), CRLF, middle, prompt);
    NoEscapeStripped(ShellReply(cmd, out, prompt, at));
    ReplyParts(WrapEcho(cmd, at), middle, prompt);
    ReplyRegrouped(WrappedAt(cmd, at), if out == "" then "" else out + "\n", prompt);
  }

  lemma ShellReplyEnds(cmd: string, out: string, prompt: string, at: nat)
    requires prompt != ""
    ensures ShellReply(cmd, out, prompt, at) != ""
    ensures ShellReply(cmd, out, prompt, at)[|ShellReply(cmd, out, prompt, at)| - 1] == prompt[|prompt| - 1]
  {
    hide Crlf, WrapEcho;
  }

  lemma ShellBodyTrimmed(out: string)
    ensures TrimSpace(ShellBody(out)) == TrimSpace(out)
  {
    hide TrimSpace;
    var tail := if out == "" then "\n" else "\n" + "\n";
    TrimSurround(out, tail);
    assert ShellBody(out) == out + tail;
  }

  lemma ShellBodyLacksPrompt(out: string, prompt: string)
    requires IsPrompt(prompt) && !Contains(out, prompt)
    ensures !Contains(ShellBody(out), prompt)
  {
    hide Contains, IsPrompt;
    NothingLacks(prompt);
    PromptInOneLine("", "", prompt);
    if out == "" {
      assert ShellBody(out) == "" + ("\n" + "");
    } else {
      PromptInOneLine(out, "" + ("\n" + ""), prompt);
      assert ShellBody(out) == out + ("\n" + ("" + ("\n" + "")));
    }
  }

  lemma NothingLacks(prompt: string)
    requires IsPrompt(prompt)
    ensures !Contains("", prompt)
  {
    var i := IndexOf("", prompt);
  }

  /** Wrapping does not make a prompt: it stands on one line. */
  lemma {:induction false} WrappedLacksPrompt(s: string, at: nat, prompt: string)
    requires IsPrompt(prompt) && !Contains(s, prompt)
    ensures !Contains(WrappedAt(s, at), prompt)
    decreases |s|
  {
    hide Contains, IsPrompt;
    if at > 0 && |s| > at {
      PartLacks(s, 0, at, prompt);
      SuffixLacks(s, at, prompt);
      WrappedLacksPrompt(s[at..], at, prompt);
      assert s[0..at] == s[..at];
      PromptInOneLine(s[..at], WrappedAt(s[at..], at), prompt);
    }
  }

  // ---- Answered commands ------------------------------------------------------------------

  /** A command sent to the device, echoed on one line or wrapped, whatever the
      chunks its reply arrives in, is a turn of an honest device, provided that the
      anchor survives the wrap somewhere or occurs in the response. */
  lemma ShellIsHonest(cmd: string, out: string, prompt: string, at: nat, io: Io)
    requires IsPrompt(prompt) && io.writeOk && Flat(io.reply) == ShellReply(cmd, out, prompt, at)
    requires '\r' !in cmd && '\r' !in out && '\r' !in prompt
    requires ESC !in cmd && ESC !in out && ESC !in prompt
    requires !Contains(cmd, prompt) && !Contains(out, prompt)
    requires Contains(ShellShown(cmd, out, at), LastToken(cmd))
    ensures Honest(Turn(cmd, io, "", ShellReply(cmd, out, prompt, at), "", ShellShown(cmd, out, at)), prompt)
  {
    hide Contains, ShellReply, ShellBody, WrappedAt, IsPrompt, LastToken;
    var answer, shown := ShellReply(cmd, out, prompt, at), ShellShown(cmd, out, at);
    ShellReplyVisible(cmd, out, prompt, at);
    WrappedLacksPrompt(cmd, at, prompt);
    ShellBodyLacksPrompt(out, prompt);
    PromptInOneLine(WrappedAt(cmd, at), ShellBody(out), prompt);
    FoundInside(shown, LastToken(cmd));
    SuffixLacks(shown, IndexOf(shown, LastToken(cmd)), prompt);
    PromptEnd(prompt);
    ShellReplyEnds(cmd, out, prompt, at);
    EmptyTail();
    assert "" + (answer + "") == answer;
  }

  lemma FoundInside(s: string, sub: string)
    requires Contains(s, sub)
    ensures 0 <= IndexOf(s, sub) <= |s|
  {}

  lemma EmptyTail()
    ensures Settled("") && AllBlank(Visible(""))
  {}

  /** Echoed on one line, the response is the device's own text. */
  lemma ShellAnswers(cmd: string, out: string)
    requires '\n' !in cmd
    ensures Contains(ShellShown(cmd, out, 0), LastToken(cmd))
    ensures Response(ShellShown(cmd, out, 0), LastToken(cmd)) == TrimSpace(out)
  {
    ResponseCleaned(cmd, ShellBody(out));
    ShellBodyTrimmed(out);
  }

  // ---- Commands that hang -------------------------------------------------------------------

  lemma EchoEndsOpen(w: string)
    requires w != "" && !IsBlank(w[|w| - 1]) && !IsClosing(w[|w| - 1])
    ensures EndsOpen(w + "\n")
  {
    assert (w + "\n")[..|w|] == w;
  }

  lemma {:induction false} WrappedEnd(s: string, at: nat)
    requires s != ""
    ensures WrappedAt(s, at) != "" && WrappedAt(s, at)[|WrappedAt(s, at)| - 1] == s[|s| - 1]
    decreases |s|
  {
    if at > 0 && |s| > at {
      WrappedEnd(s[at..], at);
    }
  }

  lemma PromptBack(prompt: string)
    requires IsPrompt(prompt) && '\r' !in prompt && ESC !in prompt
    ensures BringsPrompt(CRLF + prompt, prompt) && Visible(CRLF + prompt) == "\n" + prompt
    ensures !Contains("\n", prompt)
  {
    hide IsPrompt, Contains, RemoveCR, StripCsi;
    PromptEnd(prompt);
    NewlineKept();
    NoReturnKept(prompt);
    RemoveCRAppend(CRLF, prompt);
    NoEscapeStripped(CRLF + prompt);
    assert (CRLF + prompt)[|CRLF + prompt| - 1] == prompt[|prompt| - 1];
    NewlineLacks(prompt);
  }

  lemma NewlineLacks(prompt: string)
    requires IsPrompt(prompt)
    ensures !Contains("\n", prompt)
  {
    NothingLacks(prompt);
    PromptInOneLine("", "", prompt);
    assert "" + ("\n" + "") == "\n";
  }

  /** A command that hangs, and is answered with the prompt after Ctrl-C, with or
      without a second prompt later, is one the session recovers from. */
  lemma ShellHangs(cmd: string, prompt: string, at: nat, twice: bool, io: Io)
    requires IsPrompt(prompt) && io.writeOk && '\r' !in cmd && '\r' !in prompt && ESC !in cmd && ESC !in prompt
    requires cmd != "" && !IsBlank(cmd[|cmd| - 1]) && !IsClosing(cmd[|cmd| - 1]) && !Contains(cmd, prompt)
    requires Flat(io.reply) == WrapEcho(cmd, at) + CRLF
    requires Flat(io.afterCtrlC) == (CRLF + prompt) + (if twice then CRLF + prompt else "")
    ensures var h := Hang(cmd, io, "", WrapEcho(cmd, at) + CRLF, CRLF + prompt,
                if twice then CRLF + prompt else "");
            Recovers(h, prompt) && forall tail :: ComesBack(tail, h, prompt)
  {
    hide Contains, IsPrompt, WrappedAt, WrapEcho, StripCsi, RemoveCR, EndsOpen, BackOnlyThen, IsSuffix;
    var w := WrappedAt(cmd, at);
    WrapShows(cmd, at);
    NewlineKept();
    RemoveCRAppend(WrapEcho(cmd, at), CRLF);
    NoEscapeStripped(WrapEcho(cmd, at) + CRLF);
    NoEscapeSettled(WrapEcho(cmd, at) + CRLF);
    assert Visible(WrapEcho(cmd, at) + CRLF) == w + "\n";
    WrappedEnd(cmd, at);
    EchoEndsOpen(w);
    WrappedLacksPrompt(cmd, at, prompt);
    NothingLacks(prompt);
    PromptInOneLine(w, "", prompt);
    assert w + ("\n" + "") == w + "\n";
    PromptBack(prompt);
    LateIsPrompt(prompt, twice);
    assert "" + (WrapEcho(cmd, at) + CRLF) == WrapEcho(cmd, at) + CRLF;
    EmptyTail();
    LacksBehindAnchor(w + "\n", LastToken(cmd), prompt);
    var h := Hang(cmd, io, "", WrapEcho(cmd, at) + CRLF, CRLF + prompt, if twice then CRLF + prompt else "");
    forall tail, q: string | IsSuffix(q, tail) ensures BackOnlyThen(q, h, prompt) {
      OpenComesBack(q, h, "\n", prompt);
    }
  }

  lemma LacksBehindAnchor(shown: string, anchor: string, prompt: string)
    requires !Contains(shown, prompt)
    ensures Unanswered(shown, anchor, prompt)
  {
    if Contains(shown, anchor) {
      SuffixLacks(shown, IndexOf(shown, anchor), prompt);
    }
  }

  lemma LateIsPrompt(prompt: string, twice: bool)
    requires IsPrompt(prompt) && '\r' !in prompt && ESC !in prompt
    ensures var late := if twice then CRLF + prompt else "";
            EndsWith(TrimBlankRight(prompt + Visible(late)), prompt)
  {
    hide IsPrompt, BringsPrompt, Settled;
    PromptEnd(prompt);
    PromptBack(prompt);
    EmptyTail();
    var text := if twice then "\n" + prompt else "";
    var all := prompt + text;
    assert all[|all| - 1] == prompt[|prompt| - 1];
    assert TrimBlankRight(all) == all;
    assert all[|all| - |prompt|..] == prompt;
    assert Visible("") == "";
  }

  /** The late prompt of the device is forgotten by every command whose destination
      does not occur in the prompt. */
  lemma LatePromptForgotten(prompt: string, anchor: string)
    requires IsPrompt(prompt) && '\r' !in prompt && ESC !in prompt
    requires anchor != "" && (forall i :: 0 <= i < |anchor| ==> !IsSeparator(anchor[i])) && !Contains(prompt, anchor)
    ensures Forgotten(CRLF + prompt, "", anchor)
  {
    hide IsPrompt, Harmless;
    NewlineKept();
    NoReturnKept(prompt);
    RemoveCRAppend(CRLF, prompt);
    PromptHarmless(prompt, anchor);
    assert AllBlank("\n");
    BlanksHarmless("\n", anchor);
    TwoStrays("\n", prompt, anchor);
    EmptyHarmless(anchor);
    IdleForgotten(CRLF + prompt, "", anchor);
  }

  lemma PromptHarmless(prompt: string, anchor: string)
    requires IsPrompt(prompt) && !Contains(prompt, anchor)
    requires forall i :: 0 <= i < |anchor| ==> !IsSeparator(anchor[i])
    ensures Harmless(prompt, anchor)
  {
    PromptEnd(prompt);
  }

  lemma EmptyHarmless(anchor: string)
    requires anchor != "" && forall i :: 0 <= i < |anchor| ==> !IsSeparator(anchor[i])
    ensures Settled("") && Harmless(Visible(""), anchor)
  {}
}
