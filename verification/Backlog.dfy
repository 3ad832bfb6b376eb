/** What Stop leaves in the queue: when it is certain to be empty, and that it need
    not be. */
module Backlog {
  import opened Session
  import opened Scheduler
  import opened Tokens
  import opened Stopping

  predicate Fair(events: seq<Event>) { forall k :: 0 <= k < |events| ==> !Unfair(events[k]) }

  /** A run on which all goroutines return. */
  ghost predicate Ends(c: Settings, s: State, trace: seq<State>, events: seq<Event>) {
    Run(c, trace, events) && trace[0] == s && Finished(trace[|events|])
  }

  /** However a stopped scheduler goes on, its queue is empty when Stop returns. */
  ghost predicate EmptiedAlways(c: Settings, s: State) {
    forall trace: seq<State>, events :: Ends(c, s, trace, events) ==>
      trace[|events|].queue == []
  }

  /** The same for selects that heed the closed Done channel. */
  ghost predicate EmptiedFairly(c: Settings, s: State) {
    forall trace: seq<State>, events :: Ends(c, s, trace, events) && Fair(events) ==>
      trace[|events|].queue == []
  }

  /** Nothing is queued, and no timer is between its tick and its send. */
  predicate NothingOnTheWay(s: State) {
    s.queue == [] && forall i :: 0 <= i < |s.timers| ==> s.timers[i] in {Waiting, Skipping, Stopped}
  }

  predicate TimersStopped(s: State) { forall i :: 0 <= i < |s.timers| ==> s.timers[i].Stopped? }

  // ---- When it is empty --------------------------------------------------------------

  lemma NothingComes(c: Settings, s: State, e: Event, s': State)
    requires Steps(c, s, e, s') && NothingOnTheWay(s) && !Unfair(e)
    ensures NothingOnTheWay(s')
  {
    hide Classify, Filed, CanReturn, LeavesOpen, Min, Keeps, Capacity;
  }

  lemma NothingMoves(c: Settings, s: State, e: Event, s': State)
    requires Steps(c, s, e, s') && s.queue == [] && TimersStopped(s)
    ensures s'.queue == [] && TimersStopped(s')
  {
    hide Classify, Filed, CanReturn, LeavesOpen, Min, Keeps, Capacity;
  }

  lemma {:induction false} StaysEmpty(c: Settings, trace: seq<State>, events: seq<Event>, k: nat)
    requires Run(c, trace, events) && k < |trace|
    ensures NothingOnTheWay(trace[0]) && Fair(events) ==> NothingOnTheWay(trace[k])
    ensures trace[0].queue == [] && TimersStopped(trace[0]) ==> trace[k].queue == [] && TimersStopped(trace[k])
  {
    hide Steps, NothingOnTheWay, TimersStopped, Unfair;
    if k > 0 {
      StaysEmpty(c, trace, events, k - 1);
      if NothingOnTheWay(trace[k - 1]) && Fair(events) {
        NothingComes(c, trace[k - 1], events[k - 1], trace[k]);
      }
      if trace[k - 1].queue == [] && TimersStopped(trace[k - 1]) {
        NothingMoves(c, trace[k - 1], events[k - 1], trace[k]);
      }
    }
  }

  // ---- When it need not be -------------------------------------------------------------

  /** A way to the end of all goroutines that leaves something in the queue. */
  ghost predicate Leaves(c: Settings, s: State, trace: seq<State>, events: seq<Event>) {
    Ends(c, s, trace, events) && trace[|events|].queue != []
  }

  ghost predicate CanLeave(c: Settings, s: State) { exists trace, events :: Leaves(c, s, trace, events) }

  ghost predicate CanLeaveFairly(c: Settings, s: State) {
    exists trace, events :: Leaves(c, s, trace, events) && Fair(events)
  }

  lemma OneEarlier(c: Settings, s: State, e: Event, s': State, trace: seq<State>, events: seq<Event>)
    requires Steps(c, s, e, s') && Leaves(c, s', trace, events)
    ensures Leaves(c, s, [s] + trace, [e] + events)
  {
    hide Steps;
    var t, es := [s] + trace, [e] + events;
    forall k | 0 <= k < |es| ensures Steps(c, t[k], es[k], t[k + 1]) {
      if k > 0 {
        assert t[k] == trace[k - 1] && es[k] == events[k - 1] && t[k + 1] == trace[k];
      }
    }
  }

  lemma StepBack(c: Settings, s: State, e: Event, s': State)
    requires Steps(c, s, e, s')
    ensures CanLeave(c, s') ==> CanLeave(c, s)
    ensures CanLeaveFairly(c, s') && !Unfair(e) ==> CanLeaveFairly(c, s)
  {
    hide Steps, Leaves, Unfair;
    if CanLeave(c, s') {
      var trace, events :| Leaves(c, s', trace, events);
      OneEarlier(c, s, e, s', trace, events);
    }
    if CanLeaveFairly(c, s') && !Unfair(e) {
      var trace, events :| Leaves(c, s', trace, events) && Fair(events);
      OneEarlier(c, s, e, s', trace, events);
      assert Fair([e] + events);
    }
  }

  /** A worker goes towards its end without receiving anything. */
  lemma WorkerLeaves(c: Settings, s: State, w: nat) returns (s': State)
    requires Shape(c, s) && s.cancelled && w < c.workers && !s.workers[w].Exited?
    ensures Steps(c, s, OfWorker(w, WorkerNext(s.workers[w])), s') && Shape(c, s') && s'.cancelled
    ensures s'.queue == s.queue && s'.timers == s.timers && Remaining(s') < Remaining(s)
  {
    hide Classify, Filed, LeavesOpen, Min, Keeps, Remaining;
    var e := OfWorker(w, WorkerNext(s.workers[w]));
    s' := NextWorker(c, s, w, WorkerNext(s.workers[w])).value;
    assert Steps(c, s, e, s');
    ShapeKept(c, s, e, s');
    RemainingFalls(c, s, e, s');
  }

  /** A timer goes towards its end; it takes nothing out of the queue. */
  lemma TimerLeaves(c: Settings, s: State, i: nat) returns (s': State)
    requires Shape(c, s) && s.cancelled && i < c.targets && !s.timers[i].Stopped?
    ensures Steps(c, s, OfTimer(i, TimerNext(s.timers[i])), s') && Shape(c, s') && s'.cancelled
    ensures s.queue <= s'.queue && Remaining(s') < Remaining(s)
  {
    hide Remaining, Capacity;
    var e := OfTimer(i, TimerNext(s.timers[i]));
    s' := NextTimer(c, s, i, TimerNext(s.timers[i])).value;
    assert Steps(c, s, e, s');
    ShapeKept(c, s, e, s');
    RemainingFalls(c, s, e, s');
  }

  lemma FairSteps(x: Worker, y: Timer, w: nat, i: nat)
    ensures !Unfair(OfWorker(w, WorkerNext(x))) && !Unfair(OfTimer(i, TimerNext(y)))
  {}

  /** What is queued can stay queued: every worker may heed Done instead. */
  lemma {:induction false} QueuedStays(c: Settings, s: State)
    requires Shape(c, s) && s.cancelled && s.queue != []
    ensures CanLeaveFairly(c, s)
    decreases Remaining(s)
  {
    hide Steps, CanLeaveFairly, Remaining, Unfair, TimerNext, WorkerNext, Shape;
    if w :| 0 <= w < |s.workers| && !s.workers[w].Exited? {
      SizesOfShape(c, s);
      var s' := WorkerLeaves(c, s, w);
      QueuedStays(c, s');
      FairSteps(s.workers[w], Waiting, w, 0);
      StepBack(c, s, OfWorker(w, WorkerNext(s.workers[w])), s');
    } else if i :| 0 <= i < |s.timers| && !s.timers[i].Stopped? {
      SizesOfShape(c, s);
      var s' := TimerLeaves(c, s, i);
      QueuedStays(c, s');
      FairSteps(Exited, s.timers[i], 0, i);
      StepBack(c, s, OfTimer(i, TimerNext(s.timers[i])), s');
    } else {
      AtTheEnd(c, s);
    }
  }

  lemma AtTheEnd(c: Settings, s: State)
    requires Finished(s) && s.queue != []
    ensures CanLeaveFairly(c, s)
  {
    assert Leaves(c, s, [s], []) && Fair([]);
  }

  /** A timer between its swap and its send puts its target in. */
  lemma SendingLeaves(c: Settings, s: State, i: nat)
    requires TokensBalance(c, s) && s.cancelled && i < c.targets && s.timers[i].Sending?
    ensures CanLeaveFairly(c, s)
  {
    hide Capacity, CanLeaveFairly, TokenCount;
    RoomToSend(c, s, i);
    var s' := NextTimer(c, s, i, Send).value;
    assert Steps(c, s, OfTimer(i, Send), s');
    ShapeKept(c, s, OfTimer(i, Send), s');
    QueuedStays(c, s');
    StepBack(c, s, OfTimer(i, Send), s');
  }

  /** With no worker left and nothing queued, a timer that has fired finds its flag
      clear. */
  lemma FlagIsClear(c: Settings, s: State, i: nat)
    requires TokensBalance(c, s) && i < c.targets && s.timers[i].Ticked? && s.queue == []
    requires forall w :: 0 <= w < |s.workers| ==> s.workers[w].Exited?
    ensures !s.pending[i]
  {
    assert TokenCount(s, i) == Unit(s.pending[i]);
    NoneLeft(Token(i), s.workers);
  }

  /** A timer that has fired puts its target in too, once the workers are gone. */
  lemma {:induction false} TickedLeaves(c: Settings, s: State, i: nat)
    requires TokensBalance(c, s) && NeverFull(s) && s.cancelled && i < c.targets && s.timers[i].Ticked?
    ensures CanLeaveFairly(c, s)
    decreases Remaining(s)
  {
    hide CanLeaveFairly, Remaining, TokenCount, NextWorker, WorkerNext, Capacity;
    if s.queue != [] {
      QueuedStays(c, s);
    } else if w :| 0 <= w < |s.workers| && !s.workers[w].Exited? {
      var s' := WorkerLeaves(c, s, w);
      var e := OfWorker(w, WorkerNext(s.workers[w]));
      TokensKept(c, s, e, s');
      TickedLeaves(c, s', i);
      FairSteps(s.workers[w], Waiting, w, 0);
      StepBack(c, s, e, s');
    } else {
      FlagIsClear(c, s, i);
      var s' := NextTimer(c, s, i, Swap).value;
      assert Steps(c, s, OfTimer(i, Swap), s');
      TokensKept(c, s, OfTimer(i, Swap), s');
      SendingLeaves(c, s', i);
      StepBack(c, s, OfTimer(i, Swap), s');
    }
  }

  lemma FairlyIsSomehow(c: Settings, s: State)
    requires CanLeaveFairly(c, s)
    ensures CanLeave(c, s)
  {}

  /** If its selects may prefer a tick to Done, any timer that has not returned can
      still put its target in. */
  lemma TimerLeft(c: Settings, s: State, i: nat)
    requires TokensBalance(c, s) && NeverFull(s) && s.cancelled && i < c.targets && !s.timers[i].Stopped?
    ensures CanLeave(c, s)
  {
    hide CanLeave, CanLeaveFairly, TokenCount, Capacity;
    match s.timers[i]
    case Sending =>
      SendingLeaves(c, s, i);
      FairlyIsSomehow(c, s);
    case Ticked =>
      TickedLeaves(c, s, i);
      FairlyIsSomehow(c, s);
    case Waiting => WaitingLeaves(c, s, i);
    case Skipping =>
      var s' := NextTimer(c, s, i, CountSkip).value;
      assert Steps(c, s, OfTimer(i, CountSkip), s');
      TokensKept(c, s, OfTimer(i, CountSkip), s');
      WaitingLeaves(c, s', i);
      StepBack(c, s, OfTimer(i, CountSkip), s');
  }

  lemma WaitingLeaves(c: Settings, s: State, i: nat)
    requires TokensBalance(c, s) && NeverFull(s) && s.cancelled && i < c.targets && s.timers[i].Waiting?
    ensures CanLeave(c, s)
  {
    hide CanLeave, CanLeaveFairly, TokenCount, Capacity;
    var s' := NextTimer(c, s, i, Tick).value;
    assert Steps(c, s, OfTimer(i, Tick), s');
    TokensKept(c, s, OfTimer(i, Tick), s');
    TickedLeaves(c, s', i);
    FairlyIsSomehow(c, s');
    StepBack(c, s, OfTimer(i, Tick), s');
  }

  // ---- Exactly when -----------------------------------------------------------------------

  /** Under selects that heed Done, Stop is certain to return with an empty queue if
      and only if, when the context is cancelled, nothing is queued and no timer is
      between its tick and its send. */
  lemma StopEmptiesExactly(c: Settings, s: State)
    requires TokensBalance(c, s) && NeverFull(s) && s.cancelled
    ensures EmptiedFairly(c, s) <==> NothingOnTheWay(s)
  {
    hide TokenCount, Steps, Unfair;
    if NothingOnTheWay(s) {
      forall trace: seq<State>, events | Ends(c, s, trace, events) && Fair(events)
        ensures trace[|events|].queue == []
      {
        StaysEmpty(c, trace, events, |events|);
      }
    } else {
      if s.queue != [] {
        QueuedStays(c, s);
      } else {
        var i :| 0 <= i < |s.timers| && s.timers[i] !in {Waiting, Skipping, Stopped};
        if s.timers[i].Sending? {
          SendingLeaves(c, s, i);
        } else {
          TickedLeaves(c, s, i);
        }
      }
      var trace, events :| Leaves(c, s, trace, events) && Fair(events);
    }
  }

  /** Whatever the selects choose, it is certain if and only if nothing is queued and
      all timers have returned already. */
  lemma StopEmptiesSurely(c: Settings, s: State)
    requires TokensBalance(c, s) && NeverFull(s) && s.cancelled
    ensures EmptiedAlways(c, s) <==> s.queue == [] && TimersStopped(s)
  {
    hide TokenCount, Steps;
    if s.queue == [] && TimersStopped(s) {
      forall trace: seq<State>, events | Ends(c, s, trace, events)
        ensures trace[|events|].queue == []
      {
        StaysEmpty(c, trace, events, |events|);
      }
    } else {
      if s.queue != [] {
        QueuedStays(c, s);
        FairlyIsSomehow(c, s);
      } else {
        var i :| 0 <= i < |s.timers| && !s.timers[i].Stopped?;
        TimerLeft(c, s, i);
      }
      var trace, events :| Leaves(c, s, trace, events);
    }
  }

  /** Every scheduler with a target has a run from its start that ends with a target in
      the queue: it ticks, swaps, sends, and is stopped before a worker receives. */
  lemma StopCanLeaveBacklog(c: Settings) returns (trace: seq<State>, events: seq<Event>)
    requires c.targets >= 1
    ensures Run(c, trace, events) && trace[0] == Start(c)
    ensures Finished(trace[|events|]) && trace[|events|].queue != []
  {
    hide Leaves, CanLeave, CanLeaveFairly, TokenCount;
    var s0 := Start(c);
    TokensAtStart(c);
    var s1 := NextTimer(c, s0, 0, Tick).value;
    assert Steps(c, s0, OfTimer(0, Tick), s1);
    TokensKept(c, s0, OfTimer(0, Tick), s1);
    var s2 := NextTimer(c, s1, 0, Swap).value;
    assert Steps(c, s1, OfTimer(0, Swap), s2);
    TokensKept(c, s1, OfTimer(0, Swap), s2);
    var s3 := s2.(cancelled := true);
    assert Steps(c, s2, Cancel, s3);
    TokensKept(c, s2, Cancel, s3);
    SendingLeaves(c, s3, 0);
    FairlyIsSomehow(c, s3);
    StepBack(c, s2, Cancel, s3);
    StepBack(c, s1, OfTimer(0, Swap), s2);
    StepBack(c, s0, OfTimer(0, Tick), s1);
    trace, events := SomeRun(c, s0);
  }

  lemma SomeRun(c: Settings, s: State) returns (trace: seq<State>, events: seq<Event>)
    requires CanLeave(c, s)
    ensures Leaves(c, s, trace, events)
    ensures Run(c, trace, events) && trace[0] == s && Finished(trace[|events|]) && trace[|events|].queue != []
  {
    trace, events :| Leaves(c, s, trace, events);
  }
}
