/** Pings through the repository's test device: it serves them in the sense of the
    engine's theorem, for every width at which it wraps its echo. */
module DeviceRuns {
  import opened Machine
  import opened Text
  import opened Huawei
  import opened PingReports
  import opened Framing
  import opened Session
  import opened Exchange
  import opened Dialogue
  import opened TestDevice
  import opened Validated
  import opened Echoes
  import opened Engine

  /** Nothing that could end a line, open an escape or open a prompt. */
  predicate Unmarked(s: string) { ESC !in s && '\r' !in s && '<' !in s && '[' !in s }

  lemma UnmarkedLacksPrompt(s: string, prompt: string)
    requires Unmarked(s) && IsPrompt(prompt)
    ensures !Contains(s, prompt)
  {
    var i := IndexOf(s, prompt);
    if i >= 0 {
      AtPointwise(s, i, prompt);
      assert s[i + 0] == prompt[0];
    }
  }

  // ---- What the router prints --------------------------------------------------------------

  predicate EchoUnmarked(e: Echo) { e.Damaged? ==> Unmarked(e.text) }

  lemma NatUnmarked(n: nat)
    ensures Unmarked(NatText(n))
  {}

  lemma Joined(a: string, b: string)
    ensures Unmarked(a + b) <==> Unmarked(a) && Unmarked(b)
  {}

  lemma ReplyLiterals()
    ensures Unmarked("time=") && Unmarked(" ms") && Unmarked("hop limit=") && Unmarked("ttl=") && Unmarked(" ")
    ensures Unmarked("Sequence=")
  {}

  lemma TimeUnmarked(ms: nat, rest: string)
    requires Unmarked(rest)
    ensures Unmarked(TimeText(ms, rest))
  {
    hide NatText, Unmarked;
    ReplyLiterals();
    NatUnmarked(ms);
    Joined(" ms", rest);
    Joined(NatText(ms), " ms" + rest);
    Joined("time=", NatText(ms) + (" ms" + rest));
  }

  lemma TtlUnmarked(v6: bool, ttl: nat, rest: string)
    requires Unmarked(rest)
    ensures Unmarked(TtlText(v6, ttl, rest))
  {
    hide NatText, Unmarked;
    ReplyLiterals();
    NatUnmarked(ttl);
    Joined(" ", rest);
    Joined(NatText(ttl), " " + rest);
    Joined(if v6 then "hop limit=" else "ttl=", NatText(ttl) + (" " + rest));
  }

  lemma SequenceUnmarked(seqNo: nat, rest: string)
    requires Unmarked(rest)
    ensures Unmarked(SequenceText(seqNo, rest))
  {
    hide NatText, Unmarked;
    ReplyLiterals();
    NatUnmarked(seqNo);
    Joined(" ", rest);
    Joined(NatText(seqNo), " " + rest);
    Joined("Sequence=", NatText(seqNo) + (" " + rest));
  }

  lemma ReplyUnmarked(v6: bool, seqNo: nat, ttl: nat, ms: nat, rest: string)
    requires Unmarked(rest)
    ensures Unmarked(ReplyText(v6, seqNo, ttl, ms, rest))
  {
    hide SequenceText, TtlText, TimeText, Unmarked;
    TimeUnmarked(ms, rest);
    TtlUnmarked(v6, ttl, TimeText(ms, rest));
    SequenceUnmarked(seqNo, TtlText(v6, ttl, TimeText(ms, rest)));
  }

  predicate EntryUnmarked(e: Entry) {
    match e
    case Answered(lead, _, _, _, _) => Unmarked(lead)
    case TimedOut(lead) => Unmarked(lead)
    case Broken(text) => Unmarked(text)
    case Other(text) => Unmarked(text)
  }

  lemma LineUnmarked(e: Entry, rest: string)
    requires EntryUnmarked(e) && Unmarked(rest)
    ensures Unmarked(Line(e, rest))
  {
    hide ReplyText;
    if e.Answered? {
      ReplyUnmarked(e.v6, e.seqNo, e.ttl, e.ms, rest);
    }
  }

  lemma {:induction false} LinesUnmarked(es: seq<Entry>, rest: string)
    requires (forall i :: 0 <= i < |es| ==> EntryUnmarked(es[i])) && Unmarked(rest)
    ensures Unmarked(Lines(es, "\n", rest))
  {
    hide Line, EntryUnmarked;
    if es != [] {
      LinesUnmarked(es[1..], rest);
      LineUnmarked(es[0], "\n" + Lines(es[1..], "\n", rest));
    }
  }

  lemma LeadLiterals()
    ensures Unmarked("    Reply from ") && Unmarked(": ") && Unmarked("    ") && Unmarked("bytes=") && Unmarked(" ")
  {}

  lemma HeadLiterals()
    ensures Unmarked("  PING ") && Unmarked("  --- ") && Unmarked(": ") && Unmarked(" : ") && Unmarked("")
  {}

  lemma TrailerLiterals()
    ensures Unmarked(" ping statistics ---") && Unmarked(" ping statistics---")
  {}

  lemma HeaderFirst()
    ensures Unmarked("  data bytes, press")
  {}

  lemma HeaderSecond()
    ensures Unmarked(" CTRL_C to break")
  {}

  lemma HeaderLiteral()
    ensures Unmarked("  data bytes, press CTRL_C to break")
  {
    hide Unmarked;
    HeaderFirst();
    HeaderSecond();
    Joined("  data bytes, press", " CTRL_C to break");
    assert "  data bytes, press CTRL_C to break" == "  data bytes, press" + " CTRL_C to break";
  }

  lemma EchoEntriesUnmarked(dst: string, size: nat, v6: bool, e: Echo)
    requires Unmarked(dst) && EchoUnmarked(e)
    ensures forall i :: 0 <= i < |EchoEntries(dst, size, v6, e)| ==> EntryUnmarked(EchoEntries(dst, size, v6, e)[i])
  {
    hide NatText, Unmarked;
    LeadLiterals();
    NatUnmarked(size);
    var address := "    Reply from " + dst;
    Joined("    Reply from ", dst);
    Joined(address, ": ");
    Joined(NatText(size), " ");
    Joined("bytes=", NatText(size) + " ");
    Joined(if v6 then "    " else address + ": ", "bytes=" + (NatText(size) + " "));
  }

  lemma {:induction false} AllEntriesUnmarked(dst: string, size: nat, v6: bool, echoes: seq<Echo>)
    requires Unmarked(dst) && forall i :: 0 <= i < |echoes| ==> EchoUnmarked(echoes[i])
    ensures forall i :: 0 <= i < |AllEchoEntries(dst, size, v6, echoes)| ==>
        EntryUnmarked(AllEchoEntries(dst, size, v6, echoes)[i])
  {
    hide EchoEntries, EntryUnmarked;
    if echoes != [] {
      EchoEntriesUnmarked(dst, size, v6, echoes[0]);
      AllEntriesUnmarked(dst, size, v6, echoes[1..]);
    }
  }

  lemma StatisticsUnmarked(sent: nat, received: nat, footer: string)
    requires Unmarked(footer)
    ensures Unmarked(Statistics(sent, received, "\n", footer))
  {
    hide CountText, Unmarked;
    LeadLiterals();
    CountUnmarked(received, "received", footer);
    var second := CountText(received, "received", footer);
    Joined("    ", second);
    NewlineUnmarked();
    Joined("\n", "    " + second);
    CountUnmarked(sent, "transmitted", "\n" + ("    " + second));
    Joined("    ", CountText(sent, "transmitted", "\n" + ("    " + second)));
  }

  lemma NewlineUnmarked()
    ensures Unmarked("\n") && Unmarked(" packet(s) ") && Unmarked("transmitted") && Unmarked("received")
  {}

  lemma CountUnmarked(n: nat, word: string, rest: string)
    requires Unmarked(rest) && (word == "transmitted" || word == "received")
    ensures Unmarked(CountText(n, word, rest))
  {
    hide NatText, Unmarked;
    NewlineUnmarked();
    NatUnmarked(n);
    Joined(word, rest);
    Joined(" packet(s) ", word + rest);
    Joined(NatText(n), " packet(s) " + (word + rest));
  }

  lemma FrameUnmarked(dst: string, size: nat, v6: bool)
    requires Unmarked(dst)
    ensures Unmarked(Header(dst, size, v6)) && Unmarked(Trailer(dst, v6))
  {
    hide NatText, Unmarked;
    HeadLiterals();
    HeaderLiteral();
    TrailerLiterals();
    NatUnmarked(size);
    var colon, end := if v6 then " : " else ": ", if v6 then " ping statistics---" else " ping statistics ---";
    var tail := NatText(size) + "  data bytes, press CTRL_C to break";
    Joined(NatText(size), "  data bytes, press CTRL_C to break");
    Joined(colon, tail);
    Joined(dst, colon + tail);
    Joined("  PING ", dst + (colon + tail));
    Joined(dst, end);
    Joined("  --- ", dst + end);
  }

  /** Nothing the router fills in could be taken for a prompt or for control. */
  predicate ReportUnmarked(p: Ping) {
    && Unmarked(p.header) && Unmarked(p.trailer) && Unmarked(p.footer)
    && forall i :: 0 <= i < |p.echoes| ==> EchoUnmarked(p.echoes[i])
  }

  lemma RunUnmarked(p: Ping)
    requires Unmarked(p.job.target) && ReportUnmarked(p)
    ensures Unmarked(Printed(p))
  {
    hide Statistics, Lines, AllEchoEntries, Unmarked;
    HeadLiterals();
    AllEntriesUnmarked(p.job.target, p.size, p.job.ipv6, p.echoes);
    StatisticsUnmarked(p.sent, ReceivedCount(p.echoes), p.footer);
    LinesUnmarked(RunEntries(ReportOf(p)), Statistics(p.sent, ReceivedCount(p.echoes), "\n", p.footer));
  }

  // ---- The device serves pings ----------------------------------------------------------------

  lemma EchoTextIsUnmarked(s: string)
    requires EchoText(s)
    ensures Unmarked(s) && '\n' !in s
  {}

  lemma TargetInReport(p: Ping)
    requires FitReport(p)
    ensures Contains(Printed(p), p.job.target)
  {
    hide FitReport, Rest, HeadLine, Printed, Contains, TrimSpace;
    FitParts(p);
    PrintedParts(p);
    ContainsInside("", p.header, "\n" + Rest(p), p.job.target);
    assert "" + (p.header + ("\n" + Rest(p))) == Printed(p);
  }

  lemma FitParts(p: Ping)
    requires FitReport(p)
    ensures CleanJob(p.job) && Contains(p.header, p.job.target)
  {}

  lemma ContainsInside(a: string, b: string, c: string, sub: string)
    requires Contains(b, sub)
    ensures Contains(a + (b + c), sub)
  {
    var i := IndexOf(b, sub);
    var s := a + (b + c);
    assert s[|a| + i..|a| + i + |sub|] == b[i..i + |sub|];
    assert At(s, |a| + i, sub);
  }

  /** A ping sent to the device and answered with the router's report is a turn of an
      honest device that serves the ping, at every wrap width. */
  lemma DeviceServes(p: Ping, prompt: string, io: Io)
    requires FitReport(p) && p.body == ShellBody(Printed(p))
    requires ReportUnmarked(p)
    requires IsPrompt(prompt) && '\r' !in prompt && ESC !in prompt
    requires io.writeOk && Flat(io.reply) == ShellReply(BuildCommand(p.job), Printed(p), prompt, p.width)
    ensures var cmd := BuildCommand(p.job);
            var t := Turn(cmd, io, "", ShellReply(cmd, Printed(p), prompt, p.width), "",
                ShellShown(cmd, Printed(p), p.width));
            Honest(t, prompt) && Serves(p, t)
  {
    hide FitReport, Printed, BuildCommand, ShellReply, ShellBody, WrappedAt, TrimSpace, Contains, Honest, IsPrompt,
        EchoText;
    var cmd, out := BuildCommand(p.job), Printed(p);
    FitParts(p);
    CommandIsEcho(p.job);
    EchoTextIsUnmarked(cmd);
    TargetUnmarked(p);
    RunUnmarked(p);
    UnmarkedLacksPrompt(cmd, prompt);
    UnmarkedLacksPrompt(out, prompt);
    CleanIsPrintable(p.job);
    AnchorIsTarget(p.job);
    TargetInReport(p);
    BodyHolds(out, p.job.target);
    ContainsInside(WrappedAt(cmd, p.width) + "\n", ShellBody(out), "", p.job.target);
    assert (WrappedAt(cmd, p.width) + "\n") + (ShellBody(out) + "") == ShellShown(cmd, out, p.width);
    ShellIsHonest(cmd, out, prompt, p.width, io);
    ShellBodyTrimmed(out);
  }

  /** So is every ping answered in the router's own layout. */
  lemma VrpReportServed(p: Ping, prompt: string, io: Io)
    requires CleanJob(p.job) && VrpFrame(p) && p.body == ShellBody(Printed(p))
    requires forall e :: e in p.echoes ==> InRange(e) && EchoUnmarked(e)
    requires p.sent <= MAX_INT64 && ReceivedCount(p.echoes) <= MAX_INT64
    requires 'q' !in p.footer && p.footer != "" && !IsSpace(p.footer[|p.footer| - 1]) && Unmarked(p.footer)
    requires IsPrompt(prompt) && '\r' !in prompt && ESC !in prompt
    requires io.writeOk && Flat(io.reply) == ShellReply(BuildCommand(p.job), Printed(p), prompt, p.width)
    ensures var cmd := BuildCommand(p.job);
            var t := Turn(cmd, io, "", ShellReply(cmd, Printed(p), prompt, p.width), "",
                ShellShown(cmd, Printed(p), p.width));
            Honest(t, prompt) && Serves(p, t)
  {
    hide FitFrame, InRange, CleanJob, Unmarked, ShellReply, ShellBody, Printed, BuildCommand, IsPrompt, Honest, Serves,
        ReceivedCount, EchoUnmarked, Header, Trailer;
    VrpFrameFits(p);
    TargetUnmarked(p);
    FrameUnmarked(p.job.target, p.size, p.job.ipv6);
    DeviceServes(p, prompt, io);
  }

  lemma TargetUnmarked(p: Ping)
    requires CleanJob(p.job)
    ensures Unmarked(p.job.target)
  {}

  lemma BodyHolds(out: string, sub: string)
    requires Contains(out, sub)
    ensures Contains(ShellBody(out), sub)
  {
    var tail := if out == "" then "\n" else "\n" + "\n";
    assert ShellBody(out) == "" + (out + tail);
    ContainsInside("", out, tail, sub);
  }

  /** A ping that hangs on the device is one the session recovers from, whether or not
      the device prompts twice. */
  lemma DeviceHangs(j: Job, prompt: string, at: nat, twice: bool, io: Io)
    requires CleanJob(j) && IsPrompt(prompt) && '\r' !in prompt && ESC !in prompt && io.writeOk
    requires Flat(io.reply) == WrapEcho(BuildCommand(j), at) + CRLF
    requires Flat(io.afterCtrlC) == (CRLF + prompt) + (if twice then CRLF + prompt else "")
    ensures var h := Hang(BuildCommand(j), io, "", WrapEcho(BuildCommand(j), at) + CRLF, CRLF + prompt,
                if twice then CRLF + prompt else "");
            Recovers(h, prompt) && forall tail :: ComesBack(tail, h, prompt)
  {
    hide BuildCommand, WrapEcho, Recovers, ComesBack, IsPrompt, Contains, EchoText;
    var cmd := BuildCommand(j);
    CommandIsEcho(j);
    EchoTextIsUnmarked(cmd);
    UnmarkedLacksPrompt(cmd, prompt);
    CommandEnd(j);
    ShellHangs(cmd, prompt, at, twice, io);
  }

  lemma CommandEnd(j: Job)
    requires CleanJob(j)
    ensures var cmd := BuildCommand(j); cmd != "" && !IsBlank(cmd[|cmd| - 1]) && !IsClosing(cmd[|cmd| - 1])
  {
    hide BuildCommand, CommandWords, IsAddressText, CleanText;
    CommandIsItsWords(j);
    CleanIsPrintable(j);
    WordsAreTokens(j);
    WordPositions(j);
    UnwordsEnd(CommandWords(j));
    AddressEnd(j.target) by {
      assert CleanJob(j);
    }
  }

  lemma AddressEnd(s: string)
    requires IsAddressText(s)
    ensures s != "" && !IsBlank(s[|s| - 1]) && !IsClosing(s[|s| - 1])
  {}

  lemma {:induction false} UnwordsEnd(ts: seq<string>)
    requires AllTokens(ts) && ts != []
    ensures var w := ts[|ts| - 1]; w != "" && Unwords(ts) != "" && Unwords(ts)[|Unwords(ts)| - 1] == w[|w| - 1]
  {
    assert IsToken(ts[|ts| - 1]);
    if |ts| > 1 {
      UnwordsEnd(ts[1..]);
    }
  }
}
