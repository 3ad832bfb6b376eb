/** The interactive shell session of remote/session.go: prompt learning, one
    command at a time, and Ctrl-C recovery. */
module Session {
  import opened Wrappers
  import opened Text
  import opened Framing

  /** The result of Run. `Failed` carries which of the two sentinel errors the
      returned error wraps: ErrTimeout and ErrClosed. */
  datatype RunResult = Output(out: string) | Failed(timeout: bool, closed: bool)

  datatype WaitResult = Ready(out: string) | Expired | Eof

  datatype LoginResult = Learned | Question | LoginExpired | LoginEof

  // ---- Pure parts -----------------------------------------------------------

  /** The last white-space-separated field of `cmd`, or `cmd` when it has none. */
  function LastToken(cmd: string): string {
    var fields := Fields(cmd);
    if fields == [] then cmd else fields[|fields| - 1]
  }

  /** The anchor of a command is its last word; a command without words is its own. */
  lemma LastTokenExactly(cmd: string)
    ensures WhiteSpace(cmd) ==> LastToken(cmd) == cmd
    ensures !WhiteSpace(cmd) ==>
              exists front, trail :: EndsInWord(cmd, front, LastToken(cmd), trail)
  {
    hide Fields, WhiteSpace, EndsInWord;
    var front, trail := LastField(cmd);
    assert !WhiteSpace(cmd) ==> EndsInWord(cmd, front, LastToken(cmd), trail);
  }

  /** Drops the first line when it holds the anchor, and trims the rest. */
  function CleanOutput(out: string, anchor: string): string {
    var lines := Split(out);
    TrimSpace(Join(if Contains(lines[0], anchor) then lines[1..] else lines))
  }

  /** The test at the top of the loop of waitPrompt: from the first occurrence
      of the anchor on, the text ends in the prompt (spaces and newlines aside). */
  function Completed(text: string, prompt: string, anchor: string): Option<string> {
    var i := IndexOf(text, anchor);
    if i < 0 then None
    else
      var trimmed := TrimBlankRight(text[i..]);
      if EndsWith(trimmed, prompt) then Some(trimmed[..|trimmed| - |prompt|]) else None
  }

  /** The login question test of learnPrompt: the text ends in `[Y/N]`, in any
      case, before any of the characters " \t\r\n:". */
  predicate IsQuestionTail(c: char) { c == ' ' || c == '\t' || c == '\r' || c == '\n' || c == ':' }

  function TrimQuestionRight(s: string): (r: string)
    ensures r <= s
    ensures r != "" ==> !IsQuestionTail(r[|r| - 1])
  {
    if s != "" && IsQuestionTail(s[|s| - 1]) then TrimQuestionRight(s[..|s| - 1]) else s
  }

  function Upper(s: string): (r: string)
    ensures |r| == |s|
    ensures forall i :: 0 <= i < |s| ==> r[i] == if 'a' <= s[i] <= 'z' then s[i] - 'a' + 'A' else s[i]
  {
    if s == "" then "" else [if 'a' <= s[0] <= 'z' then s[0] - 'a' + 'A' else s[0]] + Upper(s[1..])
  }

  predicate AsksQuestion(text: string) { EndsWith(Upper(TrimQuestionRight(text)), "[Y/N]") }

  // ---- What the loops compute -------------------------------------------------

  /** The chunks of a channel, run together. */
  function Flat(chunks: seq<string>): string {
    if chunks == [] then "" else chunks[0] + Flat(chunks[1..])
  }

  datatype WaitEnd = WaitEnd(result: WaitResult, buf: string, chunks: seq<string>)

  /** waitPrompt. `chunks` is everything the channel still delivers, in order;
      `patience` is how many receives happen before the timer fires. A channel
      that runs dry before the timer fires has been closed by readLoop. */
  function Wait(buf: string, chunks: seq<string>, prompt: string, patience: nat, anchor: string): WaitEnd
    decreases |chunks|
  {
    match Completed(Visible(buf), prompt, anchor)
    case Some(out) => WaitEnd(Ready(out), "", chunks)
    case None =>
      if patience == 0 then WaitEnd(Expired, buf, chunks)
      else if chunks == [] then WaitEnd(Eof, buf, [])
      else Wait(buf + chunks[0], chunks[1..], prompt, patience - 1, anchor)
  }

  /** Nothing that has been received after each of the first `n` receives is complete. */
  ghost predicate Pending(buf: string, chunks: seq<string>, prompt: string, anchor: string, n: nat)
    requires n <= |chunks| + 1
  {
    forall k :: 0 <= k < n ==> Completed(Visible(buf + Flat(chunks[..k])), prompt, anchor).None?
  }

  /** After the first receive, what was the k-th boundary is the one before it. */
  lemma OneReceived(buf: string, chunks: seq<string>, k: nat)
    requires k < |chunks|
    ensures buf + Flat(chunks[..k + 1]) == (buf + chunks[0]) + Flat(chunks[1..][..k])
  {
    assert chunks[..k + 1][1..] == chunks[1..][..k];
    assert chunks[..k + 1][0] == chunks[0];
  }

  lemma AllReceived(buf: string, chunks: seq<string>)
    requires chunks != []
    ensures buf + Flat(chunks) == (buf + chunks[0]) + Flat(chunks[1..])
  {}

  lemma PendingMore(buf: string, chunks: seq<string>, prompt: string, anchor: string, n: nat)
    requires chunks != [] && n <= |chunks| && Pending(buf + chunks[0], chunks[1..], prompt, anchor, n)
    requires Completed(Visible(buf), prompt, anchor).None?
    ensures Pending(buf, chunks, prompt, anchor, n + 1)
  {
    hide Visible, Completed, Flat;
    forall k | 0 <= k < n + 1 ensures Completed(Visible(buf + Flat(chunks[..k])), prompt, anchor).None? {
      if k == 0 {
        NoneReceived(buf, chunks);
      } else {
        OneReceived(buf, chunks, k - 1);
      }
    }
  }

  lemma NoneReceived(buf: string, chunks: seq<string>)
    ensures buf + Flat(chunks[..0]) == buf && buf + Flat([]) == buf
  {}

  /** How waiting ends, and with what left over. It succeeds at the first boundary at
      which the text is complete, if that comes before the timer fires; else the timer
      fires after its number of receives, if there are as many chunks, and otherwise the
      end of the stream is reached. */
  lemma {:induction false} WaitExactly(buf: string, chunks: seq<string>, prompt: string, patience: nat,
      anchor: string)
    ensures var end := Wait(buf, chunks, prompt, patience, anchor);
            match end.result
            case Ready(out) =>
              var k := |chunks| - |end.chunks|;
              && 0 <= k <= patience && end.buf == "" && end.chunks == chunks[k..]
              && Pending(buf, chunks, prompt, anchor, k)
              && Completed(Visible(buf + Flat(chunks[..k])), prompt, anchor) == Some(out)
            case Expired =>
              && patience <= |chunks| && Pending(buf, chunks, prompt, anchor, patience + 1)
              && end.buf == buf + Flat(chunks[..patience]) && end.chunks == chunks[patience..]
            case Eof =>
              && patience > |chunks| && Pending(buf, chunks, prompt, anchor, |chunks| + 1)
              && end.buf == buf + Flat(chunks) && end.chunks == []
    decreases |chunks|
  {
    hide Visible, Completed, Flat, Pending;
    NoneReceived(buf, chunks);
    NonePending(buf, chunks, prompt, anchor);
    if Completed(Visible(buf), prompt, anchor).None? && patience > 0 && chunks != [] {
      var b, rest := buf + chunks[0], chunks[1..];
      WaitExactly(b, rest, prompt, patience - 1, anchor);
      var end := Wait(b, rest, prompt, patience - 1, anchor);
      AllReceived(buf, chunks);
      match end.result {
        case Ready(_) =>
          var k := |rest| - |end.chunks|;
          PendingMore(buf, chunks, prompt, anchor, k);
          OneReceived(buf, chunks, k);
        case Expired =>
          PendingMore(buf, chunks, prompt, anchor, patience);
          OneReceived(buf, chunks, patience - 1);
        case Eof =>
          PendingMore(buf, chunks, prompt, anchor, |rest| + 1);
      }
    }
  }

  lemma NonePending(buf: string, chunks: seq<string>, prompt: string, anchor: string)
    ensures Pending(buf, chunks, prompt, anchor, 0)
    ensures Completed(Visible(buf), prompt, anchor).None? ==> Pending(buf, chunks, prompt, anchor, 1)
  {
    hide Visible, Completed, Flat;
    NoneReceived(buf, chunks);
  }

  datatype LoginEnd = LoginEnd(result: LoginResult, prompt: string, buf: string, chunks: seq<string>)

  /** What learnPrompt makes of the text it has seen so far. A bracketed `Y/N`
      is a question even where it has the shape of a prompt. */
  datatype Verdict = Undecided | Asked | Prompted(prompt: string)

  function Judge(text: string): Verdict {
    if AsksQuestion(text) then Asked
    else
      match PromptAtEnd(text)
      case None => Undecided
      case Some(p) => if Contains(Upper(p), "Y/N") then Asked else Prompted(p)
  }

  /** learnPrompt. */
  function Login(buf: string, chunks: seq<string>, patience: nat): LoginEnd
    decreases |chunks|
  {
    match Judge(Visible(buf))
    case Asked => LoginEnd(Question, "", buf, chunks)
    case Prompted(p) => LoginEnd(Learned, p, "", chunks)
    case Undecided =>
      if patience == 0 then LoginEnd(LoginExpired, "", buf, chunks)
      else if chunks == [] then LoginEnd(LoginEof, "", buf, [])
      else Login(buf + chunks[0], chunks[1..], patience - 1)
  }

  /** What has been received after each of the first `n` receives decides nothing. */
  ghost predicate Doubtful(buf: string, chunks: seq<string>, n: nat)
    requires n <= |chunks| + 1
  {
    forall k :: 0 <= k < n ==> Judge(Visible(buf + Flat(chunks[..k]))) == Undecided
  }

  lemma NoneDoubtful(buf: string, chunks: seq<string>)
    ensures Doubtful(buf, chunks, 0) && (Judge(Visible(buf)) == Undecided ==> Doubtful(buf, chunks, 1))
  {
    hide Visible, Judge, Flat;
    NoneReceived(buf, chunks);
  }

  lemma DoubtfulMore(buf: string, chunks: seq<string>, n: nat)
    requires chunks != [] && n <= |chunks| && Doubtful(buf + chunks[0], chunks[1..], n)
    requires Judge(Visible(buf)) == Undecided
    ensures Doubtful(buf, chunks, n + 1)
  {
    hide Visible, Judge, Flat;
    forall k | 0 <= k < n + 1 ensures Judge(Visible(buf + Flat(chunks[..k]))) == Undecided {
      if k == 0 {
        NoneReceived(buf, chunks);
      } else {
        OneReceived(buf, chunks, k - 1);
      }
    }
  }

  /** How a login ends: at the first boundary at which the text decides something, if
      that comes before the timer fires; else the timer fires, or the stream ends. Only a
      learned prompt empties the buffer. */
  lemma {:induction false} LoginEndsAt(buf: string, chunks: seq<string>, patience: nat)
    ensures var end := Login(buf, chunks, patience);
            match end.result
            case Learned =>
              var k := |chunks| - |end.chunks|;
              && 0 <= k <= patience && end.buf == "" && end.chunks == chunks[k..] && Doubtful(buf, chunks, k)
              && Judge(Visible(buf + Flat(chunks[..k]))) == Prompted(end.prompt)
            case Question =>
              var k := |chunks| - |end.chunks|;
              && 0 <= k <= patience && end.buf == buf + Flat(chunks[..k]) && end.chunks == chunks[k..]
              && Doubtful(buf, chunks, k) && Judge(Visible(end.buf)) == Asked
            case LoginExpired =>
              && patience <= |chunks| && Doubtful(buf, chunks, patience + 1)
              && end.buf == buf + Flat(chunks[..patience]) && end.chunks == chunks[patience..]
            case LoginEof =>
              && patience > |chunks| && Doubtful(buf, chunks, |chunks| + 1)
              && end.buf == buf + Flat(chunks) && end.chunks == []
    decreases |chunks|
  {
    hide Visible, Judge, Flat, Doubtful;
    NoneReceived(buf, chunks);
    NoneDoubtful(buf, chunks);
    if Judge(Visible(buf)) == Undecided && patience > 0 && chunks != [] {
      var b, rest := buf + chunks[0], chunks[1..];
      LoginEndsAt(b, rest, patience - 1);
      var end := Login(b, rest, patience - 1);
      AllReceived(buf, chunks);
      match end.result {
        case Learned =>
          var k := |rest| - |end.chunks|;
          DoubtfulMore(buf, chunks, k);
          OneReceived(buf, chunks, k);
        case Question =>
          var k := |rest| - |end.chunks|;
          DoubtfulMore(buf, chunks, k);
          OneReceived(buf, chunks, k);
        case LoginExpired =>
          DoubtfulMore(buf, chunks, patience);
          OneReceived(buf, chunks, patience - 1);
        case LoginEof =>
          DoubtfulMore(buf, chunks, |rest| + 1);
      }
    }
  }

  /** Everything one call of Run meets from outside: how many chunks have already
      arrived when it drains, whether its write succeeds, what the device sends
      after the command and after Ctrl-C, and when the two timers fire. */
  datatype Io = Io(arrived: nat, writeOk: bool, reply: seq<string>, patience: nat,
                   afterCtrlC: seq<string>, ctrlCPatience: nat)

  /** The value of a session. `sent` is what it wrote to the device. */
  datatype Shell = Shell(buf: string, prompt: string, chunks: seq<string>, open: bool, sent: seq<string>)

  const CTRL_C := "\U{03}"

  datatype RunEnd = RunEnd(result: RunResult, shell: Shell)

  /** Run. */
  function RunStep(s: Shell, cmd: string, io: Io): RunEnd
    requires io.arrived <= |s.chunks|
  {
    var unread := s.chunks[io.arrived..];
    if !io.writeOk || !s.open then
      RunEnd(Failed(false, true), s.(buf := "", chunks := unread, open := false))
    else
      var first := Wait("", unread + io.reply, s.prompt, io.patience, LastToken(cmd));
      var sent := s.sent + [cmd + "\n"];
      match first.result
      case Ready(out) =>
        RunEnd(Output(CleanOutput(out, LastToken(cmd))),
               s.(buf := first.buf, chunks := first.chunks, sent := sent))
      case Eof =>
        RunEnd(Failed(false, true), s.(buf := first.buf, chunks := first.chunks, open := false, sent := sent))
      case Expired =>
        var second := Wait(first.buf, first.chunks + io.afterCtrlC, s.prompt, io.ctrlCPatience, "");
        var recovered := second.result.Ready?;
        RunEnd(Failed(true, !recovered),
               s.(buf := second.buf, chunks := second.chunks, open := recovered,
                  sent := sent + [CTRL_C]))
  }

  /** What Run writes: nothing to a closed session or when the write fails; else the
      command, and Ctrl-C behind it exactly when the first timer fired. */
  lemma RunSends(s: Shell, cmd: string, io: Io)
    requires io.arrived <= |s.chunks|
    ensures var end := RunStep(s, cmd, io);
            var first := Wait("", s.chunks[io.arrived..] + io.reply, s.prompt, io.patience, LastToken(cmd));
            end.shell.sent == s.sent + (if !s.open || !io.writeOk then []
                                        else if first.result.Expired? then [cmd + "\n", "\U{03}"]
                                        else [cmd + "\n"])
    ensures var r := RunStep(s, cmd, io).result;
            RunStep(s, cmd, io).shell.sent == s.sent + (if !s.open || !io.writeOk then []
                                                        else if r.Failed? && r.timeout then [cmd + "\n", "\U{03}"]
                                                        else [cmd + "\n"])
  {
    hide Wait, CleanOutput, LastToken;
    assert s.sent + [cmd + "\n"] + ["\U{03}"] == s.sent + [cmd + "\n", "\U{03}"];
  }

  /** The results after which Run leaves the session usable. */
  predicate LeavesOpen(r: RunResult) { r.Output? || (r.timeout && !r.closed) }

  /** The results Run can return at all. */
  predicate CanReturn(r: RunResult) { r.Output? || r.timeout || r.closed }

  // ---- The session ------------------------------------------------------------

  /** One read of the transport: the bytes it returned and whether it failed. */
  datatype Read = Read(bytes: string, failed: bool)

  /** The bytes read up to and including the first failing read. */
  function ReadBytes(rs: seq<Read>): string {
    if rs == [] then ""
    else rs[0].bytes + (if rs[0].failed then "" else ReadBytes(rs[1..]))
  }

  lemma {:induction false} FlatAppend(a: seq<string>, b: seq<string>)
    ensures Flat(a + b) == Flat(a) + Flat(b)
  {
    if a == [] {
      assert a + b == b;
    } else {
      assert (a + b)[1..] == a[1..] + b;
      FlatAppend(a[1..], b);
    }
  }

  /** readLoop: no byte is lost, reordered or invented, and no chunk is empty. */
  method ReadLoop(rs: seq<Read>) returns (chunks: seq<string>)
    ensures Flat(chunks) == ReadBytes(rs)
    ensures forall i :: 0 <= i < |chunks| ==> chunks[i] != ""
  {
    chunks := [];
    var i := 0;
    while i < |rs|
      invariant 0 <= i <= |rs|
      invariant Flat(chunks) + ReadBytes(rs[i..]) == ReadBytes(rs)
      invariant forall k :: 0 <= k < |chunks| ==> chunks[k] != ""
    {
      var r := rs[i];
      ReadStep(chunks, rs[i..]);
      assert rs[i..][1..] == rs[i + 1..];
      if r.bytes != "" {
        chunks := chunks + [r.bytes];
      }
      if r.failed {
        return;
      }
      i := i + 1;
    }
  }

  lemma ReadStep(chunks: seq<string>, rs: seq<Read>)
    requires rs != []
    ensures Flat(chunks) + ReadBytes(rs)
         == Flat(if rs[0].bytes != "" then chunks + [rs[0].bytes] else chunks)
            + (if rs[0].failed then "" else ReadBytes(rs[1..]))
  {
    var more := if rs[0].failed then "" else ReadBytes(rs[1..]);
    FlatAppend(chunks, [rs[0].bytes]);
    assert Flat([rs[0].bytes]) == rs[0].bytes;
    assert Flat(chunks) + (rs[0].bytes + more) == (Flat(chunks) + rs[0].bytes) + more;
  }

  class Session {
    var buf: string
    var prompt: string
    var chunks: seq<string>
    var open: bool
    var sent: seq<string>

    function State(): Shell
      reads this
    {
      Shell(buf, prompt, chunks, open, sent)
    }

    constructor (chunks: seq<string>)
      ensures State() == Shell("", "", chunks, true, [])
    {
      this.buf, this.prompt, this.chunks, this.open, this.sent := "", "", chunks, true, [];
    }

    /** Closing twice is closing once. */
    method Close()
      modifies this`open
      ensures State() == old(State()).(open := false)
    {
      open := false;
    }

    /** Reads until a prompt ends the visible text, or a question, the timer or
        the end of the stream stops it. Only success changes the prompt. */
    method LearnPrompt(patience: nat) returns (r: LoginResult)
      modifies this`buf, this`prompt, this`chunks
      ensures var end := Login(old(buf), old(chunks), patience);
              r == end.result && buf == end.buf && chunks == end.chunks
              && prompt == if r.Learned? then end.prompt else old(prompt)
    {
      hide Judge, Visible;
      var left := patience;
      while true
        invariant Login(buf, chunks, left) == Login(old(buf), old(chunks), patience)
        invariant prompt == old(prompt)
        decreases |chunks|
      {
        match Judge(Visible(buf)) {
          case Asked =>
            return Question;
          case Prompted(p) =>
            prompt := p;
            buf := "";
            return Learned;
          case Undecided =>
        }
        if left == 0 {
          return LoginExpired;
        }
        if chunks == [] {
          return LoginEof;
        }
        buf, chunks, left := buf + chunks[0], chunks[1..], left - 1;
      }
    }

    /** Drops what is left over from an interrupted command: the buffer, and the
        chunks that have already arrived. */
    method Drain(arrived: nat)
      requires arrived <= |chunks|
      modifies this`buf, this`chunks
      ensures State() == old(State()).(buf := "", chunks := old(chunks)[arrived..])
    {
      buf := "";
      var n := 0;
      while n < arrived
        invariant 0 <= n <= arrived
        invariant buf == "" && chunks == old(chunks)[n..]
      {
        chunks := chunks[1..];
        n := n + 1;
      }
    }

    method WaitPrompt(patience: nat, anchor: string) returns (r: WaitResult)
      modifies this`buf, this`chunks
      ensures var end := Wait(old(buf), old(chunks), prompt, patience, anchor);
              r == end.result && buf == end.buf && chunks == end.chunks
    {
      hide Completed, Visible;
      var left := patience;
      while true
        invariant Wait(buf, chunks, prompt, left, anchor) == Wait(old(buf), old(chunks), prompt, patience, anchor)
        decreases |chunks|
      {
        var done := Completed(Visible(buf), prompt, anchor);
        if done.Some? {
          buf := "";
          return Ready(done.value);
        }
        if left == 0 {
          return Expired;
        }
        if chunks == [] {
          return Eof;
        }
        buf, chunks, left := buf + chunks[0], chunks[1..], left - 1;
      }
    }

    /** Sends a command and returns its output. A timeout is answered with
        Ctrl-C; the session survives exactly when that brings the prompt back.
        Writing to a closed session fails. */
    method Run(cmd: string, io: Io) returns (r: RunResult)
      requires io.arrived <= |chunks|
      modifies this
      ensures RunEnd(r, State()) == RunStep(old(State()), cmd, io)
      ensures open <==> LeavesOpen(r)
      ensures CanReturn(r) && prompt == old(prompt)
      ensures !old(open) || !io.writeOk ==> r == Failed(false, true)
      ensures sent == old(sent) + (if !old(open) || !io.writeOk then []
                                   else if r.Failed? && r.timeout then [cmd + "\n", "\U{03}"]
                                   else [cmd + "\n"])
    {
      hide Wait, CleanOutput, LastToken;
      RunSends(State(), cmd, io);
      Drain(io.arrived);
      if !io.writeOk || !open {
        Close();
        return Failed(false, true);
      }
      sent := sent + [cmd + "\n"];
      chunks := chunks + io.reply;
      var anchor := LastToken(cmd);
      var first := WaitPrompt(io.patience, anchor);
      match first
      case Ready(out) =>
        return Output(CleanOutput(out, anchor));
      case Expired =>
        sent := sent + [CTRL_C];
        chunks := chunks + io.afterCtrlC;
        var second := WaitPrompt(io.ctrlCPatience, "");
        if !second.Ready? {
          Close();
          return Failed(true, true);
        }
        return Failed(true, false);
      case Eof =>
        Close();
        return Failed(false, true);
    }

    /** startShell, from the first byte on: a session is handed out only with a
        learned prompt and paging disabled, and is closed in every other case. Nothing
        is written before the prompt is learned, and then the command that disables
        paging. */
    method StartShell(patience: nat, io: Io) returns (ok: bool)
      requires open
      modifies this
      ensures ok <==> open
      ensures ok ==> IsPrompt(prompt) && !Contains(Upper(prompt), "Y/N")
      ensures var login := Login(old(buf), old(chunks), patience);
              if !login.result.Learned? then !ok && sent == old(sent)
              else
                var arrived := if io.arrived <= |login.chunks| then io.arrived else |login.chunks|;
                var paging := RunStep(Shell(login.buf, login.prompt, login.chunks, true, old(sent)),
                                      "screen-length 0 temporary", io.(arrived := arrived));
                && (ok <==> paging.result.Output?) && sent == paging.shell.sent
                && (ok ==> State() == paging.shell)
      ensures ok ==> sent == old(sent) + ["screen-length 0 temporary\n"]
    {
      hide Login, RunStep, IsPrompt, Contains, Upper;
      var login := LearnPrompt(patience);
      if !login.Learned? {
        Close();
        return false;
      }
      LearnedIsPrompt(old(buf), old(chunks), patience);
      var arrived := if io.arrived <= |chunks| then io.arrived else |chunks|;
      var r := Run("screen-length 0 temporary", io.(arrived := arrived));
      if r.Failed? {
        Close();
        return false;
      }
      assert "screen-length 0 temporary" + "\n" == "screen-length 0 temporary\n";
      return true;
    }
  }

  lemma {:induction false} LearnedIsPrompt(buf: string, chunks: seq<string>, patience: nat)
    requires Login(buf, chunks, patience).result.Learned?
    ensures IsPrompt(Login(buf, chunks, patience).prompt)
    ensures !Contains(Upper(Login(buf, chunks, patience).prompt), "Y/N")
    decreases |chunks|
  {
    hide Contains, Upper;
    match Judge(Visible(buf))
    case Prompted(p) => PromptAtEndExact(Visible(buf), p);
    case Undecided => LearnedIsPrompt(buf + chunks[0], chunks[1..], patience - 1);
  }
}
