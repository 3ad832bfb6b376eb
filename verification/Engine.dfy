/** The remote engine as a whole: a job becomes a command, the command goes over
    a session to a router, and what comes back is counted. */
module Engine {
  import opened Machine
  import opened Text
  import opened Huawei
  import opened PingOutput
  import opened PingReports
  import opened Session
  import opened Exchange
  import opened Dialogue
  import opened Echoes
  import opened Validated
  import Scheduler

  /** The anchor of a command is the destination of its ping. */
  lemma AnchorIsTarget(j: Job)
    requires Printable(j)
    ensures LastToken(BuildCommand(j)) == j.target
  {
    hide BuildCommand, CommandWords, Fields;
    CommandIsItsWords(j);
    WordsAreTokens(j);
    FieldsUnwords(CommandWords(j));
    WordPositions(j);
  }

  // ---- A ping and what the router shows for it ------------------------------------------

  /** A ping run on the router: the job and its report; `width` is where the terminal
      wraps the echo (0 for nowhere), `body` what is shown behind it. */
  datatype Ping = Ping(job: Job, header: string, size: nat, echoes: seq<Echo>, trailer: string, sent: nat,
                       footer: string, width: nat, body: string)

  function ReportOf(p: Ping): Report {
    Report(p.header, p.job.target, p.size, p.job.ipv6, p.echoes, p.trailer, p.sent, p.footer)
  }

  function Printed(p: Ping): string { PrintRun(ReportOf(p), "\n") }

  /** A header line that names the target, and otherwise no more than what makes the
      report a sound one. */
  ghost predicate FitReport(p: Ping) {
    && CleanJob(p.job) && FitFrame(p) && (forall e :: e in p.echoes ==> InRange(e))
    && p.sent <= MAX_INT64 && ReceivedCount(p.echoes) <= MAX_INT64
    && 'q' !in p.footer && p.footer != "" && !IsSpace(p.footer[|p.footer| - 1])
  }

  ghost predicate FitFrame(p: Ping) {
    && Plain(p.header) && '\n' !in p.header && Contains(p.header, p.job.target)
    && Plain(p.trailer) && StartsFresh(p.trailer)
  }

  /** The router runs the command of the ping: it shows the echo, wrapped or not, and
      then the report, whatever white space is around it. */
  ghost predicate Serves(p: Ping, t: Turn) {
    && FitReport(p)
    && t.cmd == BuildCommand(p.job)
    && t.shown == WrappedAt(t.cmd, p.width) + ("\n" + p.body)
    && TrimSpace(p.body) == TrimSpace(Printed(p))
  }

  /** What the scheduler should make of it. */
  function Reported(p: Ping): Scheduler.Outcome {
    match PingReports.Verdict(ReportOf(p))
    case Ok(ping) => Scheduler.Good(ping)
    case Err(_) => Scheduler.Garbled
  }

  // ---- The parts of a report ----------------------------------------------------------------

  lemma {:induction false} LinesEnd(es: seq<Entry>, rest: string)
    requires rest != ""
    ensures |Lines(es, "\n", rest)| >= |rest|
    ensures Lines(es, "\n", rest)[|Lines(es, "\n", rest)| - 1] == rest[|rest| - 1]
  {
    hide ReplyText;
    if es != [] {
      LinesEnd(es[1..], rest);
      LineEnd(es[0], "\n" + Lines(es[1..], "\n", rest));
    }
  }

  lemma LineEnd(e: Entry, rest: string)
    requires rest != ""
    ensures |Line(e, rest)| >= |rest| && Line(e, rest)[|Line(e, rest)| - 1] == rest[|rest| - 1]
  {
    hide NatText;
  }

  lemma FooterEnds(sent: nat, received: nat, footer: string)
    requires footer != ""
    ensures var s := Statistics(sent, received, "\n", footer); s != "" && s[|s| - 1] == footer[|footer| - 1]
  {
    hide NatText;
  }

  /** The header without its indentation, and what comes after it. */
  function HeadLine(p: Ping): string { TrimSpaceLeft(p.header) }

  function Rest(p: Ping): string {
    Print(BodyEntries(ReportOf(p)), p.sent, ReceivedCount(p.echoes), "\n", p.footer)
  }

  lemma PrintedParts(p: Ping)
    requires FitReport(p)
    ensures Printed(p) == p.header + ("\n" + Rest(p))
    ensures Rest(p) != "" && !IsSpace(Rest(p)[|Rest(p)| - 1])
    ensures TrimSpace(Printed(p)) == HeadLine(p) + ("\n" + Rest(p))
  {
    hide BodyEntries, Statistics, Lines, CleanJob, InRange, Contains, TrimSpaceLeft, TrimSpace;
    var r := ReportOf(p);
    var stats := Statistics(p.sent, ReceivedCount(p.echoes), "\n", p.footer);
    FooterEnds(p.sent, ReceivedCount(p.echoes), p.footer);
    LinesEnd(BodyEntries(r), stats);
    assert RunEntries(r)[1..] == BodyEntries(r);
    HeaderLine(RunEntries(r), stats);
    HeadLineHolds(p);
    TrimmedFront(p.header, "\n" + Rest(p));
    assert Printed(p)[|Printed(p)| - 1] == Rest(p)[|Rest(p)| - 1];
    LeftKeepsEnd(Printed(p));
  }

  lemma HeaderLine(es: seq<Entry>, rest: string)
    requires es != [] && es[0].Other?
    ensures Lines(es, "\n", rest) == es[0].text + ("\n" + Lines(es[1..], "\n", rest))
  {}

  lemma {:induction false} TrimmedFront(s: string, t: string)
    requires TrimSpaceLeft(s) != ""
    ensures TrimSpaceLeft(s + t) == TrimSpaceLeft(s) + t
  {
    hide IsSpace;
    var x := s + t;
    assert x != "" && x[0] == s[0];
    if IsSpace(s[0]) {
      assert x[1..] == s[1..] + t;
      TrimmedFront(s[1..], t);
      assert TrimSpaceLeft(x) == TrimSpaceLeft(x[1..]);
    } else {
      assert TrimSpaceLeft(x) == x;
    }
  }

  /** What does not begin in white space is not lost with it. */
  lemma {:induction false} TrimmedHolds(s: string, sub: string)
    requires Contains(s, sub) && sub != "" && !IsSpace(sub[0])
    ensures Contains(TrimSpaceLeft(s), sub)
    ensures forall c :: c in TrimSpaceLeft(s) ==> c in s
  {
    if s != "" && IsSpace(s[0]) {
      AtPointwise(s, IndexOf(s, sub), sub);
      assert !At(s, 0, sub);
      AtShift(s, sub);
      TrimmedHolds(s[1..], sub);
    }
  }

  lemma HeadLineHolds(p: Ping)
    requires CleanJob(p.job) && FitFrame(p)
    ensures Contains(HeadLine(p), p.job.target) && HeadLine(p) != ""
    ensures '\n' !in HeadLine(p) && '(' !in HeadLine(p)
  {
    TargetStarts(p);
    TrimmedHolds(p.header, p.job.target);
  }

  lemma TargetStarts(p: Ping)
    requires CleanJob(p.job)
    ensures p.job.target != "" && !IsSpace(p.job.target[0]) && '\n' !in p.job.target
  {}

  lemma TargetIsPlain(p: Ping)
    requires CleanJob(p.job)
    ensures Plain(p.job.target)
  {
    hide IsAddressText;
    AddressIsClean(p.job.target);
  }

  // ---- The router's own layout -----------------------------------------------------------------

  /** Header and trailer as the router prints them. */
  predicate VrpFrame(p: Ping) {
    p.header == Header(p.job.target, p.size, p.job.ipv6) && p.trailer == Trailer(p.job.target, p.job.ipv6)
  }

  lemma NoNewlineInHeader()
    ensures '\n' !in "  data bytes, press CTRL_C to break" && '\n' !in "  PING " && |"  PING "| == 7
  {}

  /** They are a frame of a fit report. */
  lemma VrpFrameFits(p: Ping)
    requires CleanJob(p.job) && VrpFrame(p)
    ensures FitFrame(p)
  {
    hide Plain, StartsFresh, IsAddressText, NatText;
    TargetIsPlain(p);
    LayoutIsSound(p.job.target, p.size, p.job.ipv6);
    TargetStarts(p);
    NoNewlineInHeader();
    DigitsOnly(p.size, '\n');
    var tail := (if p.job.ipv6 then " : " else ": ") + (NatText(p.size) + "  data bytes, press CTRL_C to break");
    assert '\n' !in tail;
    assert p.header == "  PING " + (p.job.target + tail);
    assert p.header[7..7 + |p.job.target|] == p.job.target;
    assert At(p.header, 7, p.job.target);
  }

  // ---- What is left of the answer says the same ------------------------------------------------

  lemma ReportIsSound(p: Ping)
    requires FitReport(p)
    ensures Sound(ReportOf(p))
  {
    hide InRange, StartsFresh, CleanJob, Plain;
    TargetIsPlain(p);
  }

  lemma VerdictIsNoGap(r: Report)
    ensures PingReports.Verdict(r).Err? ==> PingReports.Verdict(r).error.CountMismatch?
  {}

  /** Trimming white space does not change what is parsed. */
  lemma TrimmedParse(out: string)
    requires out != "" && !IsSpace(out[|out| - 1])
    requires Parse(out).Err? ==> Parse(out).error.CountMismatch?
    ensures Parse(TrimSpace(out)) == Parse(out)
  {
    hide FindReplies, FindCount, CountTimeouts, FirstLine, Split;
    LeadingSpaceIgnored(out);
    LeftKeepsEnd(out);
  }

  lemma {:induction false} LeftKeepsEnd(s: string)
    requires s != "" && !IsSpace(s[|s| - 1])
    ensures TrimSpaceLeft(s) != "" && TrimSpace(s) == TrimSpaceLeft(s)
  {
    if IsSpace(s[0]) {
      LeftKeepsEnd(s[1..]);
    }
  }

  /** The whole report, trimmed. */
  lemma WholeReport(p: Ping)
    requires FitReport(p)
    ensures Parse(TrimSpace(Printed(p))) == PingReports.Verdict(ReportOf(p))
  {
    hide Parse, PrintRun, InRange, FitReport, PingReports.Verdict, HeadLine, Rest, TrimSpace;
    ReportIsSound(p);
    RunRoundTrip(ReportOf(p), "\n");
    PrintedParts(p);
    VerdictIsNoGap(ReportOf(p));
    var t := HeadLine(p) + ("\n" + Rest(p));
    assert Printed(p)[|Printed(p)| - 1] == Rest(p)[|Rest(p)| - 1];
    TrimmedParse(Printed(p));
  }

  /** The report behind its header line. */
  lemma HeadlessReport(p: Ping, trail: string)
    requires FitReport(p) && forall i :: 0 <= i < |trail| ==> IsSpace(trail[i])
    ensures Parse(TrimSpace(Rest(p) + trail)) == PingReports.Verdict(ReportOf(p))
  {
    hide Parse, InRange, FitReport, PingReports.Verdict, HeadLine, Print, TrimSpace, BodyEntries;
    ReportIsSound(p);
    BodyRoundTrip(ReportOf(p), "\n");
    PrintedParts(p);
    VerdictIsNoGap(ReportOf(p));
    TrimSurround(Rest(p), trail);
    TrimmedParse(Rest(p));
  }

  /** The report behind what is left of a wrapped echo. */
  lemma ReportBehindEcho(p: Ping, a: string, lead: string, trail: string)
    requires FitReport(p) && IsEcho(a)
    requires forall i :: 0 <= i < |lead| ==> IsSpace(lead[i])
    requires forall i :: 0 <= i < |trail| ==> IsSpace(trail[i])
    ensures Parse(TrimSpace(a + ("\n" + (lead + (TrimSpace(Printed(p)) + trail))))) == PingReports.Verdict(ReportOf(p))
  {
    hide Parse, InRange, FitReport, PingReports.Verdict, TrimSpace, IsEcho, FindReplies, FindCount, CountTimeouts;
    var t := TrimSpace(Printed(p));
    WholeReport(p);
    VerdictIsNoGap(ReportOf(p));
    ReportText(p);
    var spaces, y := "\n" + lead, a + ("\n" + (lead + t));
    assert a + ("\n" + (lead + (t + trail))) == y + trail;
    TrimSurround(y, trail);
    assert "\n" + (lead + t) == spaces + t;
    SpacesIgnored(spaces, t);
    SpacesAreReSpaces(spaces, t);
    EchoIgnored(a, spaces + t);
    assert y == a + (spaces + t);
    SameFindingsSameParse(y, t);
    assert y[|y| - 1] == t[|t| - 1];
    TrimmedParse(y);
  }

  lemma ReportText(p: Ping)
    requires FitReport(p)
    ensures var t := TrimSpace(Printed(p));
            t != "" && !IsSpace(t[0]) && !IsSpace(t[|t| - 1]) && !(COUNTED <= t)
  {
    hide TrimSpace, Rest, InRange, Plain, StartsFresh, Contains;
    PrintedParts(p);
    HeadLineHolds(p);
    var t := HeadLine(p) + ("\n" + Rest(p));
    assert t[|t| - 1] == Rest(p)[|Rest(p)| - 1];
    NoCountedFront(HeadLine(p), "\n" + Rest(p));
  }

  lemma NoCountedFront(head: string, rest: string)
    requires '(' !in head && rest != "" && rest[0] == '\n'
    ensures !(COUNTED <= head + rest)
  {
    var t := head + rest;
    var k := if |head| <= 6 then |head| else 6;
    assert COUNTED[6] == '(' && '\n' !in COUNTED;
    assert COUNTED[k] in COUNTED;
    assert t[k] == if k < |head| then head[k] else '\n';
    NotPrefix(COUNTED, t, k);
  }

  /** A report on a line of its own. */
  lemma SpacesAreReSpaces(spaces: string, t: string)
    requires spaces != "" && spaces[0] == '\n' && t != "" && !IsSpace(t[0]) && !(COUNTED <= t)
    requires forall i :: 0 <= i < |spaces| ==> IsSpace(spaces[i])
    ensures StartsReport(spaces + t)
  {
    var b := spaces + t;
    var n := SpaceRun(b);
    assert b[|spaces|] == t[0];
    if n < |spaces| {
      assert SkipSpaces(b)[0] == b[n];
      NotPrefix(COUNTED, SkipSpaces(b), 0);
    } else {
      assert SkipSpaces(b) == t;
    }
  }

  // ---- The response of a turn -------------------------------------------------------------------

  /** Found in the echo: the rest of the echo stays in front of the report. */
  lemma FoundInEcho(p: Ping, w: string, anchor: string)
    requires FitReport(p) && IsEcho(w) && '\n' !in anchor && TrimSpace(p.body) == TrimSpace(Printed(p))
    requires Contains(w + ("\n" + p.body), anchor)
    requires IndexOf(w + ("\n" + p.body), anchor) + |anchor| <= |w|
    ensures Parse(Response(w + ("\n" + p.body), anchor)) == PingReports.Verdict(ReportOf(p))
  {
    hide Parse, FitReport, PingReports.Verdict, TrimSpace, IsEcho, Contains, Response, Printed, ReportOf, IndexOf;
    var n, last := ResponseInEcho(w, p.body, anchor);
    if last {
      WholeReport(p);
    } else {
      EchoSuffix(w, n);
      var lead, trail := TrimParts(p.body);
      ReportBehindEcho(p, w[n..], lead, trail);
    }
  }

  /** Found behind the echo: that is in the header line of the report. */
  lemma FoundInHeader(p: Ping, w: string)
    requires FitReport(p) && TrimSpace(p.body) == TrimSpace(Printed(p))
    requires Contains(w + ("\n" + p.body), p.job.target)
    requires IndexOf(w + ("\n" + p.body), p.job.target) > |w|
    ensures Parse(Response(w + ("\n" + p.body), p.job.target)) == PingReports.Verdict(ReportOf(p))
  {
    hide Parse, PingReports.Verdict, TrimSpace, Contains, Response, Printed, ReportOf, HeadLine, Rest, CleanJob,
        IndexOf;
    var lead, trail := TrimParts(p.body);
    TargetStarts(p);
    PrintedParts(p);
    HeadLineHolds(p);
    BodyRegrouped(p.body, lead, HeadLine(p), Rest(p), trail);
    ResponseInHeader(w + ("\n" + p.body), w, lead, HeadLine(p), Rest(p) + trail, p.job.target);
    HeadlessReport(p, trail);
  }

  lemma BodyRegrouped(body: string, lead: string, head: string, rest: string, trail: string)
    requires body == lead + ((head + ("\n" + rest)) + trail)
    ensures body == lead + (head + ("\n" + (rest + trail)))
  {}

  /** Whatever is left of the answer to a ping is parsed to what the router reported,
      for every width at which the echo may be wrapped. */
  lemma ServedResponse(p: Ping, t: Turn)
    requires Serves(p, t) && Contains(t.shown, LastToken(t.cmd))
    ensures Parse(Response(t.shown, LastToken(t.cmd))) == PingReports.Verdict(ReportOf(p))
  {
    hide Parse, InRange, PingReports.Verdict, TrimSpace, Contains, CleanOutput, Printed, ReportOf, CleanJob,
        WrappedAt, BuildCommand, Response;
    CleanIsPrintable(p.job);
    AnchorIsTarget(p.job);
    TargetStarts(p);
    CommandIsEcho(p.job);
    WrappedIsEcho(t.cmd, p.width);
    var w := WrappedAt(t.cmd, p.width);
    AnchorSide(t.shown, w, IndexOf(t.shown, p.job.target), p.job.target) by {
      assert t.shown[|w|] == '\n';
      FoundThere(t.shown, p.job.target);
    }
    if IndexOf(t.shown, p.job.target) > |w| {
      FoundInHeader(p, w);
    } else {
      FoundInEcho(p, w, p.job.target);
    }
  }

  lemma FoundThere(s: string, sub: string)
    requires Contains(s, sub)
    ensures IndexOf(s, sub) >= 0 && At(s, IndexOf(s, sub), sub)
  {}

  /** So the scheduler counts it as reported. */
  lemma ServedOutcome(p: Ping, t: Turn, r: RunResult)
    requires Serves(p, t) && Gives(Step.Answered(t), r)
    ensures Scheduler.Classify(r) == Reported(p)
  {
    hide Parse, Serves, Response, Contains, ReportOf;
    ServedResponse(p, t);
  }

  /** Every ping of every dialogue over one session is counted as exactly what the
      router reported, whatever the chunks its bytes arrive in and wherever its echo
      is wrapped: sent, replies and losses of a clean report, and no result at all of
      a damaged one. A command that hangs is counted as a timeout that keeps the
      session. No report is mistaken for another. */
  lemma PingsAreCountedExactly(s: Shell, tail: string, steps: seq<Step>, pings: seq<Ping>)
    requires s.open && IsSuffix(Flat(s.chunks), tail) && InTime(s, steps) && Courteous(tail, steps, s.prompt)
    requires |pings| == |steps|
    requires forall k :: 0 <= k < |steps| && steps[k].Answered? ==> Serves(pings[k], steps[k].turn)
    ensures Follows(s, steps) && |Results(s, steps)| == |steps|
    ensures forall k :: 0 <= k < |steps| ==>
              Scheduler.Classify(Results(s, steps)[k])
              == if steps[k].Answered? then Reported(pings[k]) else Scheduler.Overdue(true)
  {
    hide Follows, Results, Courteous, InTime, Serves, Reported, IsSuffix, Parse;
    HonestDialogueExact(s, tail, steps);
    forall k | 0 <= k < |steps|
      ensures Scheduler.Classify(Results(s, steps)[k])
              == if steps[k].Answered? then Reported(pings[k]) else Scheduler.Overdue(true)
    {
      assert Gives(steps[k], Results(s, steps)[k]);
      if steps[k].Answered? {
        assert Step.Answered(steps[k].turn) == steps[k];
        ServedOutcome(pings[k], steps[k].turn, Results(s, steps)[k]);
      }
    }
  }
}
