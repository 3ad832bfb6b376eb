/** The scheduler and the dialogues together: in a scheduler whose sessions talk to
    routers that serve their pings, what is recorded for a target is exactly what the
    routers reported for its command. */
module Delivery {
  import opened Machine
  import opened Huawei
  import opened PingOutput
  import opened Session
  import opened Dialogue
  import opened Engine
  import opened Scheduler
  import opened Accounts
  import opened Outcomes

  // ---- What a session is connected to -----------------------------------------------------

  /** A session as it is handed out, the commands that will be run on it, and the
      pings the router serves for those that it answers. */
  datatype Line = Line(shell: Shell, tail: string, steps: seq<Step>, pings: seq<Ping>)

  /** The router keeps to the protocol, within the timers, and serves the pings. */
  ghost predicate Served(l: Line) {
    && l.shell.open && IsSuffix(Flat(l.shell.chunks), l.tail)
    && InTime(l.shell, l.steps) && Courteous(l.tail, l.steps, l.shell.prompt)
    && |l.pings| == |l.steps|
    && forall k :: 0 <= k < |l.steps| && l.steps[k].Answered? ==> Serves(l.pings[k], l.steps[k].turn)
  }

  /** What the n-th Run on the session returns. */
  ghost function Replied(l: Line, n: nat): RunResult
    requires Served(l) && n < |l.steps|
  {
    PingsAreCountedExactly(l.shell, l.tail, l.steps, l.pings);
    Results(l.shell, l.steps)[n]
  }

  /** What the router has to say to the n-th command: its report, or nothing in time. */
  function Message(l: Line, n: nat): Outcome
    requires n < |l.steps| == |l.pings|
  {
    if l.steps[n].Answered? then Reported(l.pings[n]) else Overdue(true)
  }

  /** That is what the scheduler understands, and Run can return it. */
  lemma Understood(l: Line, n: nat)
    requires Served(l) && n < |l.steps|
    ensures Classify(Replied(l, n)) == Message(l, n) && CanReturn(Replied(l, n))
  {
    hide Results, InTime, Courteous, Serves, Reported, IsSuffix, Parse;
    PingsAreCountedExactly(l.shell, l.tail, l.steps, l.pings);
    MessageKeeps(l, n);
    KeepsCanReturn(Replied(l, n));
  }

  lemma MessageKeeps(l: Line, n: nat)
    requires n < |l.steps| == |l.pings|
    ensures Keeps(Message(l, n))
  {
    hide ReportOf;
  }

  lemma KeepsCanReturn(r: RunResult)
    requires Keeps(Classify(r))
    ensures CanReturn(r)
  {
    hide Parse;
  }

  // ---- Runs of the scheduler over such lines -----------------------------------------------

  /** A Run on session `sid` returns in this step. */
  predicate ReturnsOn(s: State, e: Event, sid: nat) { Returns(s, e) && s.workers[e.w].sid == sid }

  /** How many Runs have returned on session `sid` before the k-th step. */
  function Answers(trace: seq<State>, events: seq<Event>, sid: nat, k: nat): nat
    requires k <= |events| < |trace|
  {
    if k == 0 then 0
    else Answers(trace, events, sid, k - 1) + if ReturnsOn(trace[k - 1], events[k - 1], sid) then 1 else 0
  }

  /** The n-th Run on the line ran the job and returned what is returned here. */
  ghost predicate Carries(l: Line, j: Job, n: nat, r: RunResult) {
    && Served(l) && n < |l.steps|
    && StepCmd(l.steps[n]) == BuildCommand(j) && r == Replied(l, n)
  }

  /** A Run that leaves its session usable is the next step of that session, with the
      command of the target the worker holds. A Run may also lose its session. */
  ghost predicate Faithful(jobs: seq<Job>, lines: nat -> Line, x: Worker, n: nat, r: RunResult)
    requires x.Running?
  {
    x.target < |jobs| && (LeavesOpen(r) ==> Carries(lines(x.sid), jobs[x.target], n, r))
  }

  ghost predicate Driven(c: Settings, jobs: seq<Job>, lines: nat -> Line, trace: seq<State>, events: seq<Event>) {
    && Run(c, trace, events) && |jobs| == c.targets
    && forall k :: 0 <= k < |events| && Returns(trace[k], events[k]) ==>
         var x := trace[k].workers[events[k].w];
         Faithful(jobs, lines, x, Answers(trace, events, x.sid, k), events[k].we.result)
  }

  lemma {:induction false} AnswersSoFar(trace: seq<State>, events: seq<Event>, s: State, e: Event, sid: nat, k: nat)
    requires k <= |events| < |trace|
    ensures Answers(trace + [s], events + [e], sid, k) == Answers(trace, events, sid, k)
  {
    if k > 0 {
      AnswersSoFar(trace, events, s, e, sid, k - 1);
    }
  }

  /** Whenever a worker is in Run and its session has a step left with the command of the
      worker's target, Run can return as that step says, and the run goes on like this. */
  lemma GoesOn(c: Settings, jobs: seq<Job>, lines: nat -> Line, trace: seq<State>, events: seq<Event>, w: nat)
      returns (s: State, e: Event)
    requires Driven(c, jobs, lines, trace, events) && Shape(c, trace[|events|])
    requires w < c.workers && trace[|events|].workers[w].Running?
    requires var x := trace[|events|].workers[w];
             var l, n := lines(x.sid), Answers(trace, events, x.sid, |events|);
             Served(l) && n < |l.steps| && StepCmd(l.steps[n]) == BuildCommand(jobs[x.target])
    ensures e.OfWorker? && e.w == w && Returns(trace[|events|], e)
    ensures Driven(c, jobs, lines, trace + [s], events + [e])
  {
    hide BuildCommand, Served, Replied, Classify, Filed, Message, Answers;
    var last := trace[|events|];
    var x := last.workers[w];
    var l, n := lines(x.sid), Answers(trace, events, x.sid, |events|);
    Understood(l, n);
    e := OfWorker(w, Return(Replied(l, n)));
    s := NextWorker(c, last, w, Return(Replied(l, n))).value;
    assert Steps(c, last, e, s);
    OneLonger(c, jobs, lines, trace, events, e, s);
  }

  lemma OneLonger(c: Settings, jobs: seq<Job>, lines: nat -> Line, trace: seq<State>, events: seq<Event>, e: Event,
      s: State)
    requires Driven(c, jobs, lines, trace, events) && Steps(c, trace[|events|], e, s)
    requires Returns(trace[|events|], e) ==>
               var x := trace[|events|].workers[e.w];
               Faithful(jobs, lines, x, Answers(trace, events, x.sid, |events|), e.we.result)
    ensures Driven(c, jobs, lines, trace + [s], events + [e])
  {
    hide Steps, Faithful, Answers;
    var t, es := trace + [s], events + [e];
    assert forall k :: 0 <= k < |events| ==> es[k] == events[k];
    assert forall k :: 0 <= k <= |events| ==> t[k] == trace[k];
    forall k | 0 <= k < |es| ensures Steps(c, t[k], es[k], t[k + 1]) {
      if k < |events| {
        assert t[k + 1] == trace[k + 1];
      }
    }
    forall k | 0 <= k < |es| && Returns(t[k], es[k])
      ensures var x := t[k].workers[es[k].w]; Faithful(jobs, lines, x, Answers(t, es, x.sid, k), es[k].we.result)
    {
      AnswersSoFar(trace, events, s, e, t[k].workers[es[k].w].sid, k);
    }
  }

  /** What a router said to a command that was run for a target, or how the session was
      lost over it. */
  datatype Said = Said(target: nat, cmd: string, message: Outcome)

  /** The step's message, if a Run returns in it. */
  ghost function SaidIn(c: Settings, jobs: seq<Job>, lines: nat -> Line, trace: seq<State>, events: seq<Event>, k: nat)
      : seq<Said>
    requires Driven(c, jobs, lines, trace, events) && k < |events|
  {
    if Returns(trace[k], events[k]) then
      var x := trace[k].workers[events[k].w];
      var l, n := lines(x.sid), Answers(trace, events, x.sid, k);
      if LeavesOpen(events[k].we.result) then [Said(x.target, StepCmd(l.steps[n]), Message(l, n))]
      else
        [Said(x.target, BuildCommand(jobs[x.target]), if events[k].we.result.timeout then Overdue(false) else Broken)]
    else []
  }

  /** All that the routers said in the first k steps, on all sessions, in order. */
  ghost function AllSaid(c: Settings, jobs: seq<Job>, lines: nat -> Line, trace: seq<State>, events: seq<Event>, k: nat)
      : seq<Said>
    requires Driven(c, jobs, lines, trace, events) && k <= |events|
  {
    if k == 0 then []
    else AllSaid(c, jobs, lines, trace, events, k - 1) + SaidIn(c, jobs, lines, trace, events, k - 1)
  }

  // ---- What was said for one target ----------------------------------------------------------

  function SaidFor(t: nat, all: seq<Said>): seq<Outcome> {
    if all == [] then []
    else
      var n := |all| - 1;
      SaidFor(t, all[..n]) + if all[n].target == t then [all[n].message] else []
  }

  /** The same by the command, which is all that a router knows of a target. */
  function SaidTo(cmd: string, all: seq<Said>): seq<Outcome> {
    if all == [] then []
    else
      var n := |all| - 1;
      SaidTo(cmd, all[..n]) + if all[n].cmd == cmd then [all[n].message] else []
  }

  /** Where different targets have different commands, and each command is its
      target's, the two are the same. */
  lemma {:induction false} CommandTells(jobs: seq<Job>, t: nat, all: seq<Said>)
    requires t < |jobs| && forall u :: 0 <= u < |jobs| && BuildCommand(jobs[u]) == BuildCommand(jobs[t]) ==> u == t
    requires forall x :: x in all ==> x.target < |jobs| && x.cmd == BuildCommand(jobs[x.target])
    ensures SaidTo(BuildCommand(jobs[t]), all) == SaidFor(t, all)
  {
    hide BuildCommand;
    if all != [] {
      var n := |all| - 1;
      CommandTells(jobs, t, all[..n]);
      assert all[n] in all;
    }
  }

  function GoodOnes(os: seq<Outcome>): seq<PingResult> {
    if os == [] then []
    else
      var n := |os| - 1;
      GoodOnes(os[..n]) + if os[n].Good? then [os[n].ping] else []
  }

  function OverdueCount(os: seq<Outcome>): nat {
    if os == [] then 0 else OverdueCount(os[..|os| - 1]) + if os[|os| - 1].Overdue? then 1 else 0
  }

  function GarbledCount(os: seq<Outcome>): nat {
    if os == [] then 0 else GarbledCount(os[..|os| - 1]) + if os[|os| - 1].Garbled? then 1 else 0
  }

  function BrokenCount(os: seq<Outcome>): nat {
    if os == [] then 0 else BrokenCount(os[..|os| - 1]) + if os[|os| - 1].Broken? then 1 else 0
  }

  /** The target's history is what was said. */
  ghost predicate Tells(l: Ledger, os: seq<Outcome>) {
    && l.runs == GoodOnes(os) && l.timeouts == OverdueCount(os) && l.parseErrors == GarbledCount(os)
    && l.failures == BrokenCount(os)
  }

  lemma OneMore(l: Ledger, l': Ledger, os: seq<Outcome>, o: Outcome)
    requires Tells(l, os) && l' == Filed(l, o)
    ensures Tells(l', os + [o])
  {
    assert (os + [o])[..|os|] == os;
  }

  lemma SameTells(l: Ledger, l': Ledger, os: seq<Outcome>)
    requires Tells(l, os) && SameRuns(l, l')
    ensures Tells(l', os)
  {}

  lemma SaidForAppend(t: nat, all: seq<Said>, x: Said)
    ensures SaidFor(t, all + [x]) == SaidFor(t, all) + if x.target == t then [x.message] else []
  {
    assert (all + [x])[..|all|] == all;
  }

  // ---- The history of a target -------------------------------------------------------------------

  lemma LineSizes(l: Line)
    requires Served(l)
    ensures |l.pings| == |l.steps|
  {}

  /** What is said in a step in which a Run returns. */
  lemma OneSaid(c: Settings, jobs: seq<Job>, lines: nat -> Line, trace: seq<State>, events: seq<Event>, k: nat)
    requires Driven(c, jobs, lines, trace, events) && k < |events| && Returns(trace[k], events[k])
    ensures trace[k].workers[events[k].w].target < |jobs|
    ensures var t := trace[k].workers[events[k].w].target;
            SaidIn(c, jobs, lines, trace, events, k) == [Said(t, BuildCommand(jobs[t]), Classify(events[k].we.result))]
  {
    hide BuildCommand, Served, Replied, Classify, Message, Steps, LeavesOpen;
    var x := trace[k].workers[events[k].w];
    var n := Answers(trace, events, x.sid, k);
    if LeavesOpen(events[k].we.result) {
      assert Carries(lines(x.sid), jobs[x.target], n, events[k].we.result);
      Understood(lines(x.sid), n);
      LineSizes(lines(x.sid));
    } else {
      LostMessage(events[k].we.result);
    }
  }

  lemma LostMessage(r: RunResult)
    requires !LeavesOpen(r)
    ensures r.Failed? && Classify(r) == if r.timeout then Overdue(false) else Broken
  {}

  /** Each thing said was said to the command of the target it was said for. */
  lemma {:induction false} SaidToItsCommand(c: Settings, jobs: seq<Job>, lines: nat -> Line, trace: seq<State>,
      events: seq<Event>, k: nat)
    requires Driven(c, jobs, lines, trace, events) && k <= |events|
    ensures forall x :: x in AllSaid(c, jobs, lines, trace, events, k) ==>
              x.target < |jobs| && x.cmd == BuildCommand(jobs[x.target])
  {
    hide BuildCommand, Driven, Classify, SaidIn, Steps;
    DrivenRuns(c, jobs, lines, trace, events);
    if k > 0 {
      SaidToItsCommand(c, jobs, lines, trace, events, k - 1);
      if Returns(trace[k - 1], events[k - 1]) {
        OneSaid(c, jobs, lines, trace, events, k - 1);
      } else {
        NothingSaid(c, jobs, lines, trace, events, k - 1);
      }
    }
  }

  lemma NothingSaid(c: Settings, jobs: seq<Job>, lines: nat -> Line, trace: seq<State>, events: seq<Event>, k: nat)
    requires Driven(c, jobs, lines, trace, events) && k < |events| && !Returns(trace[k], events[k])
    ensures SaidIn(c, jobs, lines, trace, events, k) == []
  {}

  lemma HistoryStep(c: Settings, jobs: seq<Job>, lines: nat -> Line, trace: seq<State>, events: seq<Event>, k: nat,
      t: nat, before: seq<Said>, said: seq<Said>)
    requires Driven(c, jobs, lines, trace, events) && k < |events| && t < c.targets
    requires said == SaidIn(c, jobs, lines, trace, events, k)
    requires t < |trace[k].ledger| && Tells(trace[k].ledger[t], SaidFor(t, before))
    ensures t < |trace[k + 1].ledger|
    ensures Tells(trace[k + 1].ledger[t], SaidFor(t, before + said))
  {
    hide BuildCommand, Classify, SaidIn, SaidFor, Filed, Tells, Steps, Carries;
    StepFiles(c, trace[k], events[k], trace[k + 1], t);
    if Returns(trace[k], events[k]) {
      OneSaid(c, jobs, lines, trace, events, k);
      var o := Classify(events[k].we.result);
      var u := trace[k].workers[events[k].w].target;
      SaidForAppend(t, before, Said(u, BuildCommand(jobs[u]), o));
      if u == t {
        OneMore(trace[k].ledger[t], trace[k + 1].ledger[t], SaidFor(t, before), o);
      } else {
        assert SaidFor(t, before) + [] == SaidFor(t, before);
        SameTells(trace[k].ledger[t], trace[k + 1].ledger[t], SaidFor(t, before));
      }
    } else {
      NothingSaid(c, jobs, lines, trace, events, k);
      SameTells(trace[k].ledger[t], trace[k + 1].ledger[t], SaidFor(t, before));
      assert before + said == before;
    }
  }

  /** In every state of a run over such lines, the results filed for a target are exactly
      the reports that the routers gave for it, in order; its parse errors are the damaged
      reports, its timeouts the commands that hung, and its failures the lost sessions. */
  lemma {:induction false} HistoryIsSaid(c: Settings, jobs: seq<Job>, lines: nat -> Line, trace: seq<State>,
      events: seq<Event>, k: nat, t: nat)
    requires Driven(c, jobs, lines, trace, events) && trace[0] == Start(c) && k <= |events| && t < c.targets
    ensures t < |trace[k].ledger|
    ensures Tells(trace[k].ledger[t], SaidFor(t, AllSaid(c, jobs, lines, trace, events, k)))
  {
    hide Driven, SaidFor, SaidIn, Tells;
    if k == 0 {
      NothingYet(c, t);
    } else {
      HistoryIsSaid(c, jobs, lines, trace, events, k - 1, t);
      HistoryStep(c, jobs, lines, trace, events, k - 1, t, AllSaid(c, jobs, lines, trace, events, k - 1),
                  SaidIn(c, jobs, lines, trace, events, k - 1));
    }
  }

  lemma NothingYet(c: Settings, t: nat)
    requires t < c.targets
    ensures Tells(Start(c).ledger[t], SaidFor(t, []))
  {}

  lemma DrivenRuns(c: Settings, jobs: seq<Job>, lines: nat -> Line, trace: seq<State>, events: seq<Event>)
    requires Driven(c, jobs, lines, trace, events)
    ensures Run(c, trace, events) && |jobs| == c.targets
  {}

  lemma BookParts(c: Settings, s: State, t: nat)
    requires Books(c, s) && t < c.targets
    ensures t < |s.timers| && t < |s.ledger| && t < |s.pending| && s.ledger[t].recorded <= s.ledger[t].runs
  {
    assert TargetBooks(s, t);
  }

  /** Whoever listened to the routers would agree. In every state, for a target with a
      command of its own, what is recorded is a beginning of the reports given to that
      command, over all sessions, in order. When nobody holds the target it is all of
      them, and its sent counter is the sum of what they say, modulo 2^64. */
  lemma ResultsAreTheReports(c: Settings, jobs: seq<Job>, lines: nat -> Line, trace: seq<State>, events: seq<Event>,
      k: nat, t: nat)
    requires Driven(c, jobs, lines, trace, events) && trace[0] == Start(c) && k <= |events| && t < c.targets
    requires forall u :: 0 <= u < |jobs| && BuildCommand(jobs[u]) == BuildCommand(jobs[t]) ==> u == t
    ensures t < |trace[k].ledger| && t < |trace[k].pending| && t < |trace[k].timers|
    ensures var reports := GoodOnes(SaidTo(BuildCommand(jobs[t]), AllSaid(c, jobs, lines, trace, events, k)));
            var l := trace[k].ledger[t];
            l.recorded <= l.runs == reports
            && (!trace[k].pending[t] && trace[k].timers[t] in {Waiting, Skipping, Stopped} ==>
                  l.recorded == reports && l.sent == SumSent(reports) % TWO_TO_THE_64)
  {
    hide BuildCommand, Driven, SaidTo, SaidFor, AllSaid, GoodOnes, SumSent, Books;
    DrivenRuns(c, jobs, lines, trace, events);
    HistoryIsSaid(c, jobs, lines, trace, events, k, t);
    SaidToItsCommand(c, jobs, lines, trace, events, k);
    CommandTells(jobs, t, AllSaid(c, jobs, lines, trace, events, k));
    BooksAlways(c, trace, events, k);
    BookParts(c, trace[k], t);
    if !trace[k].pending[t] && trace[k].timers[t] in {Waiting, Skipping, Stopped} {
      SettledBooks(c, trace[k], t);
    }
  }
}
