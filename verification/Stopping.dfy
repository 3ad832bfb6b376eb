/** Stopping a scheduler: what a run does after the context was cancelled, that
    it comes to an end, and what is true when Stop returns. */
module Stopping {
  import opened Machine
  import opened Wrappers
  import opened Sums
  import opened Session
  import opened Scheduler
  import opened Tokens
  import opened Accounts
  import opened Ownership

  lemma CancelledStays(c: Settings, s: State, e: Event, s': State)
    requires Steps(c, s, e, s') && s.cancelled
    ensures s'.cancelled && !e.Cancel?
  {
    hide NextTimer, NextWorker;
    match e
    case Cancel =>
    case OfTimer(i, te) => TimerFrame(c, s, i, te, s');
    case OfWorker(w, we) => WorkerFrame(c, s, w, we, s');
  }

  lemma {:induction false} CancelledAlways(c: Settings, trace: seq<State>, events: seq<Event>, k: nat)
    requires Run(c, trace, events) && trace[0].cancelled && k < |trace|
    ensures trace[k].cancelled
  {
    hide Steps;
    if k > 0 {
      CancelledAlways(c, trace, events, k - 1);
      CancelledStays(c, trace[k - 1], events[k - 1], trace[k]);
    }
  }

  lemma RunPrefix(c: Settings, trace: seq<State>, events: seq<Event>, n: nat)
    requires Run(c, trace, events) && n <= |events|
    ensures Run(c, trace[..n + 1], events[..n])
  {
    hide Steps;
  }

  // ---- No more work ---------------------------------------------------------------

  /** What a worker can still do once the scheduler is cancelled. */
  datatype Deed = Finishing | Taking | Dismissing

  predicate Does(d: Deed, w: nat, e: Event) {
    && e.OfWorker? && e.w == w
    && match d
       case Finishing => e.we.Return?
       case Taking => e.we.Take?
       case Dismissing => e.we.Drop?
  }

  /** How often it can still do it. */
  function Allowance(d: Deed, x: Worker): nat {
    match d
    case Finishing => Unit(x.Running?)
    case Taking => Unit(!x.Dequeued? && !x.Dropping? && !x.Leaving? && !x.Left? && !x.Exited?)
    case Dismissing => Unit(!x.Leaving? && !x.Left? && !x.Exited?)
  }

  function Deeds(d: Deed, w: nat, events: seq<Event>): nat {
    if events == [] then 0
    else Deeds(d, w, events[..|events| - 1]) + Unit(Does(d, w, events[|events| - 1]))
  }

  lemma DeedStep(c: Settings, s: State, e: Event, s': State, d: Deed, w: nat)
    requires Steps(c, s, e, s') && s.cancelled && w < c.workers
    ensures |s'.workers| == c.workers
    ensures Allowance(d, s'.workers[w]) + Unit(Does(d, w, e)) <= Allowance(d, s.workers[w])
  {
    hide Classify, Filed, CanReturn, LeavesOpen, Min, Keeps;
    ShapeKept(c, s, e, s');
    match e
    case Cancel =>
    case OfTimer(i, te) => TimerFrame(c, s, i, te, s');
    case OfWorker(v, we) => WorkerFrame(c, s, v, we, s');
  }

  /** After cancellation a worker finishes a job only if it was running that job
      when the context was cancelled, and then only that one; it takes at most
      one more target from the queue and drops at most one. */
  lemma {:induction false} WorkAfterCancel(c: Settings, trace: seq<State>, events: seq<Event>, d: Deed, w: nat)
    requires Run(c, trace, events) && Shape(c, trace[0]) && trace[0].cancelled && w < c.workers
    ensures |trace[0].workers| == |trace[|events|].workers| == c.workers
    ensures Deeds(d, w, events) + Allowance(d, trace[|events|].workers[w]) <= Allowance(d, trace[0].workers[w])
  {
    hide Steps, Allowance, Does;
    if events != [] {
      var n := |events| - 1;
      RunPrefix(c, trace, events, n);
      WorkAfterCancel(c, trace[..n + 1], events[..n], d, w);
      CancelledAlways(c, trace, events, n);
      DeedStep(c, trace[n], events[n], trace[n + 1], d, w);
    }
  }

  lemma RunningStep(c: Settings, s: State, e: Event, s': State, w: nat)
    requires Steps(c, s, e, s') && s.cancelled && w < c.workers
    ensures |s'.workers| == c.workers && (s'.workers[w].Running? ==> s'.workers[w] == s.workers[w])
  {
    hide Classify, Filed, CanReturn, LeavesOpen, Min, Keeps;
    ShapeKept(c, s, e, s');
    match e
    case Cancel =>
    case OfTimer(i, te) => TimerFrame(c, s, i, te, s');
    case OfWorker(v, we) => WorkerFrame(c, s, v, we, s');
  }

  /** No command is started after cancellation: a worker that is running one was
      already running that very one when the context was cancelled. */
  lemma {:induction false} NothingStartsAfterCancel(c: Settings, trace: seq<State>, events: seq<Event>, k: nat, w: nat)
    requires Run(c, trace, events) && Shape(c, trace[0]) && trace[0].cancelled && k < |trace| && w < c.workers
    ensures |trace[0].workers| == |trace[k].workers| == c.workers
    ensures trace[k].workers[w].Running? ==> trace[k].workers[w] == trace[0].workers[w]
  {
    hide Steps;
    if k > 0 {
      NothingStartsAfterCancel(c, trace, events, k - 1, w);
      CancelledAlways(c, trace, events, k - 1);
      RunningStep(c, trace[k - 1], events[k - 1], trace[k], w);
    }
  }

  function AllowanceColumn(d: Deed, ws: seq<Worker>): seq<nat> {
    seq(|ws|, i requires 0 <= i < |ws| => Allowance(d, ws[i]))
  }

  lemma AllowanceMoved(d: Deed, ws: seq<Worker>, w: nat, x: Worker)
    requires w < |ws|
    ensures Sum(AllowanceColumn(d, ws[w := x])) + Allowance(d, ws[w]) == Sum(AllowanceColumn(d, ws)) + Allowance(d, x)
  {
    hide Allowance;
    assert AllowanceColumn(d, ws[w := x]) == AllowanceColumn(d, ws)[w := Allowance(d, x)];
    SumUpdate(AllowanceColumn(d, ws), w, Allowance(d, x));
  }

  lemma BacklogStep(c: Settings, s: State, e: Event, s': State)
    requires Steps(c, s, e, s') && s.cancelled
    ensures |s'.queue| + Sum(AllowanceColumn(Taking, s.workers)) >= |s.queue| + Sum(AllowanceColumn(Taking, s'.workers))
  {
    hide Classify, Filed, CanReturn, LeavesOpen, Min, Keeps, Sum;
    match e
    case Cancel =>
    case OfTimer(i, te) => TimerFrame(c, s, i, te, s');
    case OfWorker(w, we) =>
      WorkerFrame(c, s, w, we, s');
      AllowanceMoved(Taking, s.workers, w, s'.workers[w]);
  }

  lemma {:induction false} BacklogTrace(c: Settings, trace: seq<State>, events: seq<Event>, k: nat)
    requires Run(c, trace, events) && trace[0].cancelled && k < |trace|
    ensures |trace[k].queue| + Sum(AllowanceColumn(Taking, trace[0].workers))
         >= |trace[0].queue| + Sum(AllowanceColumn(Taking, trace[k].workers))
  {
    hide Steps, Sum;
    if k > 0 {
      BacklogTrace(c, trace, events, k - 1);
      CancelledAlways(c, trace, events, k - 1);
      BacklogStep(c, trace[k - 1], events[k - 1], trace[k]);
    }
  }

  /** Stopping does not drain the queue: at most one target per worker leaves it. */
  lemma BacklogStays(c: Settings, trace: seq<State>, events: seq<Event>, k: nat)
    requires Run(c, trace, events) && Shape(c, trace[0]) && trace[0].cancelled && k < |trace|
    ensures |trace[k].queue| + c.workers >= |trace[0].queue|
  {
    hide Run, Steps, Sum;
    BacklogTrace(c, trace, events, k);
    AtMostOneEach(AllowanceColumn(Taking, trace[0].workers));
  }

  // ---- Stopping comes to an end -----------------------------------------------------

  /** All goroutines have returned, so Stop returns. */
  ghost predicate Finished(s: State) {
    && (forall i :: 0 <= i < |s.timers| ==> s.timers[i].Stopped?)
    && (forall w :: 0 <= w < |s.workers| ==> s.workers[w].Exited?)
  }

  /** After cancellation these select branches compete with a closed Done channel. */
  predicate Unfair(e: Event) { (e.OfTimer? && e.te.Tick?) || (e.OfWorker? && e.we.BackoffOver?) }

  /** How many fair steps each goroutine is from its end. */
  function TimerRank(x: Timer): nat {
    match x
    case Stopped => 0
    case Waiting => 1
    case Skipping => 2
    case QueueFull => 3
    case Sending => 4
    case Ticked => 5
  }

  function WorkerRank(x: Worker): nat {
    match x
    case Exited => 0
    case Left => 1
    case BackingOff(_, _) => 1
    case Leaving(_) => 2
    case DialFailed(_, _) => 2
    case Dropping(_, _) => 3
    case Dequeued(_, _) => 4
    case Idle(_) => 5
    case Connected(_) => 6
    case Dialing(_, _) => 7
    case Discarded => 8
    case Discarding(_) => 9
    case Releasing(_, _, _) => 10
    case Recording(_, _, _) => 11
    case Ran(_, _, _) => 12
    case Running(_, _) => 13
  }

  function TimerRanks(ts: seq<Timer>): seq<nat> { seq(|ts|, i requires 0 <= i < |ts| => TimerRank(ts[i])) }

  function WorkerRanks(ws: seq<Worker>): seq<nat> { seq(|ws|, i requires 0 <= i < |ws| => WorkerRank(ws[i])) }

  function Remaining(s: State): nat { Sum(TimerRanks(s.timers)) + Sum(WorkerRanks(s.workers)) }

  lemma TimerRankMoved(ts: seq<Timer>, i: nat, x: Timer)
    requires i < |ts|
    ensures Sum(TimerRanks(ts[i := x])) + TimerRank(ts[i]) == Sum(TimerRanks(ts)) + TimerRank(x)
  {
    hide TimerRank;
    assert TimerRanks(ts[i := x]) == TimerRanks(ts)[i := TimerRank(x)];
    SumUpdate(TimerRanks(ts), i, TimerRank(x));
  }

  lemma WorkerRankMoved(ws: seq<Worker>, w: nat, x: Worker)
    requires w < |ws|
    ensures Sum(WorkerRanks(ws[w := x])) + WorkerRank(ws[w]) == Sum(WorkerRanks(ws)) + WorkerRank(x)
  {
    hide WorkerRank;
    assert WorkerRanks(ws[w := x]) == WorkerRanks(ws)[w := WorkerRank(x)];
    SumUpdate(WorkerRanks(ws), w, WorkerRank(x));
  }

  lemma TimerRankFalls(c: Settings, s: State, i: nat, te: TimerEvent, s': State)
    requires Shape(c, s) && i < c.targets && NextTimer(c, s, i, te) == Some(s')
    ensures |s'.timers| == c.targets
    ensures if te.Tick? then TimerRank(s'.timers[i]) <= TimerRank(s.timers[i]) + 4
            else TimerRank(s'.timers[i]) < TimerRank(s.timers[i])
  {}

  lemma WorkerRankFalls(c: Settings, s: State, w: nat, we: WorkerEvent, s': State)
    requires Shape(c, s) && s.cancelled && w < c.workers && NextWorker(c, s, w, we) == Some(s')
    ensures |s'.workers| == c.workers
    ensures if we.BackoffOver? then WorkerRank(s'.workers[w]) <= WorkerRank(s.workers[w]) + 6
            else WorkerRank(s'.workers[w]) < WorkerRank(s.workers[w])
  {
    hide Classify, Filed, CanReturn, LeavesOpen, Min, Keeps;
    WorkerFrame(c, s, w, we, s');
  }

  lemma RemainingFalls(c: Settings, s: State, e: Event, s': State)
    requires Steps(c, s, e, s') && s.cancelled
    ensures Remaining(s') + 1 <= Remaining(s) + 7 * Unit(Unfair(e))
  {
    hide NextTimer, NextWorker, TimerRank, WorkerRank, Sum;
    match e
    case Cancel =>
    case OfTimer(i, te) =>
      TimerFrame(c, s, i, te, s');
      TimerRankFalls(c, s, i, te, s');
      TimerRankMoved(s.timers, i, s'.timers[i]);
    case OfWorker(w, we) =>
      WorkerFrame(c, s, w, we, s');
      WorkerRankFalls(c, s, w, we, s');
      WorkerRankMoved(s.workers, w, s'.workers[w]);
  }

  function UnfairChoices(events: seq<Event>): nat {
    if events == [] then 0
    else UnfairChoices(events[..|events| - 1]) + Unit(Unfair(events[|events| - 1]))
  }

  lemma {:induction false} StepsAfterCancel(c: Settings, trace: seq<State>, events: seq<Event>)
    requires Run(c, trace, events) && trace[0].cancelled
    ensures |events| + Remaining(trace[|events|]) <= Remaining(trace[0]) + 7 * UnfairChoices(events)
  {
    hide Steps, Remaining, Unfair;
    if events != [] {
      var n := |events| - 1;
      RunPrefix(c, trace, events, n);
      StepsAfterCancel(c, trace[..n + 1], events[..n]);
      CancelledAlways(c, trace, events, n);
      RemainingFalls(c, trace[n], events[n], trace[n + 1]);
    }
  }

  lemma {:induction false} AtMostEach(xs: seq<nat>, b: nat)
    requires forall i :: 0 <= i < |xs| ==> xs[i] <= b
    ensures Sum(xs) <= b * |xs|
  {
    if xs != [] {
      AtMostEach(xs[1..], b);
      assert b * |xs| == b + b * |xs[1..]|;
    }
  }

  /** After cancellation a run is bounded: at most 5 steps per timer, 13 per
      worker, and 7 for each time a select prefers its tick or its backoff to the
      closed Done channel. In particular every dial and every Run that is still
      waited for is waited for once. */
  lemma StoppingIsBounded(c: Settings, trace: seq<State>, events: seq<Event>)
    requires Run(c, trace, events) && Shape(c, trace[0]) && trace[0].cancelled
    ensures |events| <= 5 * c.targets + 13 * c.workers + 7 * UnfairChoices(events)
  {
    hide Steps, Sum;
    StepsAfterCancel(c, trace, events);
    AtMostEach(TimerRanks(trace[0].timers), 5);
    AtMostEach(WorkerRanks(trace[0].workers), 13);
  }

  /** So a scheduler that is stopped cannot go on for ever unless its selects go on
      for ever preferring a tick or a backoff to the closed Done channel: in an
      infinite run after cancellation there is such a choice after every point. */
  lemma NeverStopsOnlyIfUnfair(c: Settings, state: nat -> State, event: nat -> Event, n: nat)
    requires forall k: nat :: Steps(c, state(k), event(k), state(k + 1))
    requires state(0).cancelled
    ensures exists k :: k >= n && Unfair(event(k))
  {
    hide Steps, Unfair, Remaining;
    if forall k :: k >= n ==> !Unfair(event(k)) {
      CancelledForEver(c, state, event, n);
      var m := Remaining(state(n)) + 1;
      var trace := seq(m + 1, i requires 0 <= i => state(n + i));
      var events := seq(m, i requires 0 <= i => event(n + i));
      forall i | 0 <= i < m ensures Steps(c, trace[i], events[i], trace[i + 1]) {
        assert Steps(c, state(n + i), event(n + i), state(n + i + 1));
      }
      AllFair(events);
      StepsAfterCancel(c, trace, events);
    }
  }

  lemma {:induction false} CancelledForEver(c: Settings, state: nat -> State, event: nat -> Event, n: nat)
    requires forall k: nat :: Steps(c, state(k), event(k), state(k + 1))
    requires state(0).cancelled
    ensures state(n).cancelled
  {
    hide Steps;
    if n > 0 {
      CancelledForEver(c, state, event, n - 1);
      assert Steps(c, state(n - 1), event(n - 1), state(n - 1 + 1));
      CancelledStays(c, state(n - 1), event(n - 1), state(n));
    }
  }

  lemma {:induction false} AllFair(events: seq<Event>)
    requires forall k :: 0 <= k < |events| ==> !Unfair(events[k])
    ensures UnfairChoices(events) == 0
  {
    if events != [] {
      AllFair(events[..|events| - 1]);
    }
  }

  /** A step that some goroutine can take and that leads towards the end. */
  ghost predicate CanProceed(c: Settings, s: State, e: Event) {
    !Unfair(e) && exists s' :: Steps(c, s, e, s')
  }

  function TimerNext(x: Timer): TimerEvent {
    match x
    case Waiting => TimerDone
    case Ticked => Swap
    case Sending => Send
    case QueueFull => Undo
    case Skipping => CountSkip
    case Stopped => TimerDone
  }

  function WorkerNext(x: Worker): WorkerEvent {
    match x
    case Dialing(_, _) => DialFail
    case DialFailed(_, _) => CountDialFailure
    case BackingOff(_, _) => BackoffDone
    case Connected(_) => SessionUp
    case Idle(_) => WorkerDone
    case Dequeued(_, _) => Check
    case Dropping(_, _) => Drop
    case Running(_, _) => Return(Failed(true, true))
    case Ran(_, _, _) => Account
    case Recording(_, _, _) => Record
    case Releasing(_, _, _) => Release
    case Discarding(_) => Discard
    case Discarded => SessionDown
    case Leaving(_) => LeaveClose
    case Left => LeaveDown
    case Exited => WorkerDone
  }

  lemma TimerCanProceed(c: Settings, s: State, i: nat)
    requires Shape(c, s) && s.cancelled && i < c.targets && !s.timers[i].Stopped?
    ensures CanProceed(c, s, OfTimer(i, TimerNext(s.timers[i])))
  {
    var te := TimerNext(s.timers[i]);
    assert NextTimer(c, s, i, te).Some?;
    assert Steps(c, s, OfTimer(i, te), NextTimer(c, s, i, te).value);
  }

  lemma WorkerCanProceed(c: Settings, s: State, w: nat)
    requires Shape(c, s) && s.cancelled && w < c.workers && !s.workers[w].Exited?
    ensures CanProceed(c, s, OfWorker(w, WorkerNext(s.workers[w])))
  {
    hide Classify, Filed, LeavesOpen, Min, Keeps;
    var we := WorkerNext(s.workers[w]);
    assert NextWorker(c, s, w, we).Some?;
    assert Steps(c, s, OfWorker(w, we), NextWorker(c, s, w, we).value);
  }

  /** No deadlock: until every goroutine has returned, some goroutine can take a
      step that leads towards the end. */
  lemma StopNeverStuck(c: Settings, s: State)
    requires Shape(c, s) && s.cancelled
    ensures Finished(s) <==> forall e :: !CanProceed(c, s, e)
  {
    hide NextTimer, NextWorker, Unfair;
    if Finished(s) {
      forall e ensures !CanProceed(c, s, e) {
        NothingLeft(c, s, e);
      }
    } else if i :| 0 <= i < |s.timers| && !s.timers[i].Stopped? {
      TimerCanProceed(c, s, i);
    } else {
      var w :| 0 <= w < |s.workers| && !s.workers[w].Exited?;
      WorkerCanProceed(c, s, w);
    }
  }

  lemma NothingLeft(c: Settings, s: State, e: Event)
    requires Shape(c, s) && s.cancelled && Finished(s)
    ensures !CanProceed(c, s, e)
  {
    forall s' ensures !Steps(c, s, e, s') {
      match e
      case Cancel =>
      case OfTimer(i, te) =>
      case OfWorker(w, we) =>
    }
  }

  // ---- When Stop returns -----------------------------------------------------------

  /** What holds of one target when every goroutine has returned. */
  ghost predicate TargetAtRest(s: State, t: nat) {
    && t < |s.ledger| && t < |s.pending|
    && (s.pending[t] <==> t in s.queue)
    && var l := s.ledger[t];
       && l.fires == l.skips + l.enqueued
       && l.enqueued == l.timeouts + l.failures + l.parseErrors + |l.recorded| + l.drops + Unit(t in s.queue)
       && l.recorded == l.runs
       && l.sent == SumSent(l.recorded) % TWO_TO_THE_64
  }

  lemma {:induction false} NoneLeft(k: Tally, ws: seq<Worker>)
    requires forall w :: 0 <= w < |ws| ==> ws[w].Exited?
    ensures Total(k, ws) == 0
  {
    hide Classify;
    SumZero(Column(k, ws));
  }

  lemma RestOfTarget(c: Settings, s: State, t: nat)
    requires Books(c, s) && Finished(s) && t < c.targets
    ensures TargetAtRest(s, t)
  {
    hide Total, SumSent;
    assert TargetBooks(s, t);
    assert TokenCount(s, t) == Unit(s.pending[t]);
    NoneLeft(Token(t), s.workers);
    NoneLeft(Live(t), s.workers);
    NoneLeft(OwesSent(t), s.workers);
    NoneLeft(OwesRecord(t), s.workers);
    assert t in s.queue <==> multiset(s.queue)[t] > 0;
  }

  /** When Stop returns, no target is being run, every session ever dialled is
      closed and sessions_up is back to where it began; every fire of a timer and
      every error is in exactly one counter; and the only targets whose flag is
      still set are those left in the queue. */
  lemma StopReturns(c: Settings, trace: seq<State>, events: seq<Event>, k: nat)
    requires Run(c, trace, events) && trace[0] == Start(c) && k < |trace| && Finished(trace[k])
    ensures trace[k].closed == Range(trace[k].dialled)
    ensures trace[k].sessionsUp == 0
    ensures forall t: nat :: t < c.targets ==> TargetAtRest(trace[k], t)
    ensures trace[k].skipped == Overall(Skips, trace[k].ledger)
    ensures trace[k].timeoutErrors == Overall(Timeouts, trace[k].ledger)
    ensures trace[k].parseErrors == Overall(ParseErrors, trace[k].ledger)
    ensures trace[k].connectErrors == trace[k].dialFailures + Overall(Failures, trace[k].ledger)
  {
    hide Run, Books, Overall, TargetAtRest, Total;
    var s := trace[k];
    OwnershipAlways(c, trace, events, k);
    BooksAlways(c, trace, events, k);
    MetricsAlways(c, trace, events, k);
    forall t: nat | t < c.targets ensures TargetAtRest(s, t) {
      RestOfTarget(c, s, t);
    }
    NoneLeft(OwesTimeout, s.workers);
    NoneLeft(OwesParse, s.workers);
    NoneLeft(OwesConnect, s.workers);
    NoneLeft(Up, s.workers);
    SumZero(SkippingColumn(s.timers));
  }
}
