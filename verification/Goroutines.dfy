/** The code of the scheduler's goroutines, interrupted by all the others between any
    two of its atomic actions: `schedule` with `enqueue`, and `worker` with `runJob`,
    with their loops, their local variables and worker's deferred close. Whatever the
    interleaving, what they do is a run of the protocol. */
module Goroutines {
  import opened Wrappers
  import opened Session
  import opened Scheduler
  import opened Tokens
  import opened Ownership
  import opened Outcomes
  import opened PingOutput

  datatype Goroutine = TimerOf(i: nat) | WorkerAt(w: nat)

  predicate Mine(me: Goroutine, e: Event) {
    match me
    case TimerOf(i) => e.OfTimer? && e.i == i
    case WorkerAt(w) => e.OfWorker? && e.w == w
  }

  /** The step of an event, if it can happen. */
  function Next(c: Settings, s: State, e: Event): Option<State>
    requires Shape(c, s)
  {
    match e
    case Cancel => if s.cancelled then None else Some(s.(cancelled := true))
    case OfTimer(i, te) => if i < c.targets then NextTimer(c, s, i, te) else None
    case OfWorker(w, we) => if w < c.workers then NextWorker(c, s, w, we) else None
  }

  lemma NextIsStep(c: Settings, s: State, e: Event)
    requires Shape(c, s) && Next(c, s, e).Some?
    ensures Steps(c, s, e, Next(c, s, e).value) && Shape(c, Next(c, s, e).value)
  {
    hide NextTimer, NextWorker;
    ShapeKept(c, s, e, Next(c, s, e).value);
  }

  /** What a goroutine can rely on while the others run: its own place in the code,
      that a cancelled context stays cancelled, and a closed session closed. */
  ghost predicate Undisturbed(me: Goroutine, s: State, s': State) {
    && |s'.timers| == |s.timers| && |s'.workers| == |s.workers|
    && (me.TimerOf? && me.i < |s.timers| ==> s'.timers[me.i] == s.timers[me.i])
    && (me.WorkerAt? && me.w < |s.workers| ==> s'.workers[me.w] == s.workers[me.w])
    && (s.cancelled ==> s'.cancelled) && s.closed <= s'.closed
  }

  lemma ClosedGrows(c: Settings, s: State, w: nat, we: WorkerEvent, s': State)
    requires Shape(c, s) && w < c.workers && NextWorker(c, s, w, we) == Some(s')
    ensures s.closed <= s'.closed
  {
    hide Classify, Filed, CanReturn, LeavesOpen, Min, Keeps;
  }

  lemma OthersKeep(c: Settings, s: State, e: Event, s': State, me: Goroutine)
    requires Steps(c, s, e, s') && !Mine(me, e)
    ensures Undisturbed(me, s, s')
  {
    hide NextTimer, NextWorker;
    ShapeKept(c, s, e, s');
    match e
    case Cancel =>
    case OfTimer(i, te) =>
      TimerFrame(c, s, i, te, s');
      TimersCloseNothing(c, s, i, te, s');
    case OfWorker(w, we) =>
      WorkerFrame(c, s, w, we, s');
      ClosedGrows(c, s, w, we, s');
  }

  lemma TimersCloseNothing(c: Settings, s: State, i: nat, te: TimerEvent, s': State)
    requires Shape(c, s) && i < c.targets && NextTimer(c, s, i, te) == Some(s')
    ensures s'.closed == s.closed
  {}

  ghost predicate OwnedByOther(ws: seq<Worker>, w: nat, sid: nat) {
    exists v :: 0 <= v < |ws| && v != w && HasSession(ws[v]) && ws[v].sid == sid
  }

  /** Where a worker stands after an event of its own. */
  function Place(c: Settings, s: State, at: Worker, we: WorkerEvent): Option<Worker> {
    match at
    case Dialing(b, f) =>
      if we.DialOk? then Some(Connected(s.dialled)) else if we.DialFail? then Some(DialFailed(b, f)) else None
    case DialFailed(b, f) => if we.CountDialFailure? then Some(BackingOff(b, f)) else None
    case BackingOff(b, f) =>
      if we.BackoffOver? then Some(Dialing(Min(b * 2, c.maxBackoff), f + 1))
      else if we.BackoffDone? && s.cancelled then Some(Exited) else None
    case Connected(sid) => if we.SessionUp? then Some(Idle(sid)) else None
    case Idle(sid) =>
      if we.Take? && s.queue != [] then Some(Dequeued(sid, s.queue[0]))
      else if we.WorkerDone? && s.cancelled then Some(Leaving(sid)) else None
    case Dequeued(sid, t) =>
      if we.Check? then Some(if s.cancelled then Dropping(sid, t) else Running(sid, t)) else None
    case Dropping(sid, t) => if we.Drop? then Some(Leaving(sid)) else None
    case Running(sid, t) => if we.Return? && CanReturn(we.result) then Some(Ran(sid, t, we.result)) else None
    case Ran(sid, t, r) =>
      var o := Classify(r);
      if we.Account? then Some(if o.Good? then Recording(sid, t, o.ping) else Releasing(sid, t, Keeps(o))) else None
    case Recording(sid, t, _) => if we.Record? then Some(Releasing(sid, t, true)) else None
    case Releasing(sid, _, keep) => if we.Release? then Some(if keep then Idle(sid) else Discarding(sid)) else None
    case Discarding(_) => if we.Discard? then Some(Discarded) else None
    case Discarded => if we.SessionDown? then Some(Dialing(c.minBackoff, 0)) else None
    case Leaving(_) => if we.LeaveClose? then Some(Left) else None
    case Left => if we.LeaveDown? then Some(Exited) else None
    case Exited => None
  }

  lemma PlaceIsNext(c: Settings, s: State, w: nat, we: WorkerEvent)
    requires Shape(c, s) && w < c.workers
    ensures NextWorker(c, s, w, we).Some? <==> Place(c, s, s.workers[w], we).Some?
    ensures NextWorker(c, s, w, we).Some? ==>
              NextWorker(c, s, w, we).value.workers == s.workers[w := Place(c, s, s.workers[w], we).value]
  {
    hide Classify, Filed, CanReturn, LeavesOpen, Min, Keeps;
  }

  /** What else a worker's event does that the code relies on. */
  lemma EffectOf(c: Settings, s: State, w: nat, we: WorkerEvent, s': State)
    requires Shape(c, s) && w < c.workers && NextWorker(c, s, w, we) == Some(s')
    ensures s'.cancelled == s.cancelled && s.closed <= s'.closed
    ensures we.LeaveClose? || we.Discard? ==> s.workers[w].sid in s'.closed
    ensures we.Release? ==> s.workers[w].target < |s'.pending| && !s'.pending[s.workers[w].target]
  {
    hide Classify, Filed, CanReturn, LeavesOpen, Min, Keeps;
  }

  /** The shared variables, with the history of everything that happened to them. */
  class Live {
    const c: Settings
    var s: State
    ghost var trace: seq<State>
    ghost var events: seq<Event>

    /** What has happened is a run of the protocol, so all that holds of runs holds. */
    ghost predicate Valid()
      reads this
    {
      && Run(c, trace, events) && |trace| == |events| + 1
      && trace[0] == Start(c) && trace[|events|] == s && Shape(c, s)
    }

    constructor (c: Settings)
      ensures Valid() && this.c == c && s == Start(c)
    {
      this.c, s, trace, events := c, Start(c), [Start(c)], [];
    }

    /** One atomic action of some goroutine. */
    method Do(e: Event)
      requires Valid() && Next(c, s, e).Some?
      modifies this
      ensures Valid() && Next(c, old(s), e) == Some(s)
    {
      hide Steps, Next, Shape;
      NextIsStep(c, s, e);
      s := Next(c, s, e).value;
      trace, events := trace + [s], events + [e];
    }

    /** Any number of actions of the others, in any order. */
    method Others(me: Goroutine)
      requires Valid()
      modifies this
      ensures Valid() && Undisturbed(me, old(s), s)
    {
      hide Steps, Next, Mine, Run, Start, Shape;
      var n: nat :| n >= 0;
      for k := 0 to n
        invariant Valid() && Undisturbed(me, old(s), s)
      {
        var e: Event := *;
        if !Mine(me, e) && Next(c, s, e).Some? {
          ghost var before := s;
          NextIsStep(c, s, e);
          Do(e);
          OthersKeep(c, before, e, s, me);
        }
      }
    }

    // ---- schedule and enqueue -------------------------------------------------------

    /** enqueue: the swap, and then the send. With the others in between the queue
        still has room, so the default branch of the send is never taken. */
    method Enqueue(i: nat)
      requires Valid() && i < c.targets && s.timers[i].Ticked?
      modifies this
      ensures Valid() && s.timers[i].Waiting? && (old(s.cancelled) ==> s.cancelled)
    {
      hide Run, Start, TokensBalance, Capacity;
      var swapped := !s.pending[i];
      Do(OfTimer(i, Swap));
      Others(TimerOf(i));
      if !swapped {
        Do(OfTimer(i, CountSkip));
        return;
      }
      TokensAlways(c, trace, events, |events|);
      RoomToSend(c, s, i);
      assert |s.queue| < Capacity(c);
      Do(OfTimer(i, Send));
    }

    /** schedule, for at most `rounds` rounds of its selects: the first on the offset's
        timer, the others on the ticker. It returns only when the context is cancelled,
        and otherwise stands in a select. */
    method Schedule(i: nat, rounds: nat) returns (returned: bool)
      requires Valid() && i < c.targets && s.timers[i].Waiting?
      modifies this
      ensures Valid() && i < |s.timers| && s.timers[i] == (if returned then Stopped else Waiting)
      ensures returned ==> s.cancelled
    {
      hide Run, Start;
      for round := 0 to rounds
        invariant Valid() && s.timers[i].Waiting?
      {
        Others(TimerOf(i));
        var done: bool := *;
        if done && s.cancelled {
          Do(OfTimer(i, TimerDone));
          return true;
        }
        Do(OfTimer(i, Tick));
        Others(TimerOf(i));
        Enqueue(i);
      }
      return false;
    }

    // ---- worker and runJob -----------------------------------------------------------

    /** One atomic action of the worker `w`. */
    method Act(w: nat, we: WorkerEvent)
      requires Valid() && w < c.workers && Place(c, s, s.workers[w], we).Some?
      modifies this
      ensures Valid() && s.workers == old(s.workers)[w := Place(c, old(s), old(s.workers[w]), we).value]
      ensures s.cancelled == old(s.cancelled) && old(s.closed) <= s.closed
      ensures we.LeaveClose? || we.Discard? ==> HasSession(old(s.workers[w])) && old(s.workers[w]).sid in s.closed
      ensures we.Release? ==> HasTarget(old(s.workers[w])) && old(s.workers[w]).target < |s.pending|
                              && !s.pending[old(s.workers[w]).target]
      ensures Steps(c, old(s), OfWorker(w, we), s)
    {
      hide Run, Start, Classify, CanReturn, NextWorker, NextTimer, Keeps, Min;
      ghost var before := s;
      PlaceIsNext(c, s, w, we);
      Do(OfWorker(w, we));
      EffectOf(c, before, w, we, s);
    }

    /** runJob: the session it calls Run on is open, and it says that the session can
        be reused exactly when it is still open; whatever Run returned, the target's
        flag is clear when it returns. A timeout counts as one, whether or not the session
        was lost with it. */
    method RunJob(w: nat) returns (reuse: bool)
      requires Valid() && w < c.workers && s.workers[w].Running?
      modifies this
      ensures Valid() && |s.workers| == c.workers && old(s.closed) <= s.closed
      ensures var at := old(s.workers[w]);
              && s.workers[w] == (if reuse then Idle(at.sid) else Discarding(at.sid))
              && (reuse <==> at.sid !in s.closed)
              && at.target < |s.pending| && !s.pending[at.target]
    {
      hide Run, Start, Classify, CanReturn, NextWorker, Steps, Parse;
      ghost var at := s.workers[w];
      Others(WorkerAt(w));
      IsOpen(w);
      assert at.sid !in s.closed;
      AnyResult();
      var r: RunResult :| CanReturn(r);
      Act(w, Return(r));
      Others(WorkerAt(w));
      ghost var before := s;
      Act(w, Account);
      AccountMoves(c, before, w, s);
      if r.Failed? && r.timeout {
        assert s.timeoutErrors == before.timeoutErrors + 1 && s.connectErrors == before.connectErrors;
        reuse := !r.closed;
      } else if r.Failed? {
        assert s.connectErrors == before.connectErrors + 1 && s.timeoutErrors == before.timeoutErrors;
        reuse := false;
      } else {
        reuse := true;
        if Parse(r.out).Ok? {
          assert s.workers[w] == Recording(at.sid, at.target, Parse(r.out).value);
          Others(WorkerAt(w));
          Act(w, Record);
        } else {
          assert s.parseErrors == before.parseErrors + 1;
        }
      }
      Others(WorkerAt(w));
      Act(w, Release);
      IsOpen(w);
    }

    /** The deferred close of worker. */
    method Leave(w: nat)
      requires Valid() && w < c.workers && s.workers[w].Leaving?
      modifies this
      ensures Valid() && |s.workers| == c.workers && s.workers[w].Exited?
      ensures old(s.workers[w]).sid in s.closed && old(s.closed) <= s.closed && (old(s.cancelled) ==> s.cancelled)
    {
      hide Run, Start, Classify, CanReturn, NextWorker, Keeps;
      Others(WorkerAt(w));
      Act(w, LeaveClose);
      Others(WorkerAt(w));
      Act(w, LeaveDown);
    }

    /** One dial of worker: with a session, or after the wait, or stopped while it
        waits. `backoff` is the local variable. */
    method Connect(w: nat, backoff: nat) returns (r: Option<nat>, wait: nat, returned: bool)
      requires Valid() && w < c.workers && s.workers[w].Dialing? && s.workers[w].backoff == backoff
      modifies this
      ensures Valid() && |s.workers| == c.workers && old(s.closed) <= s.closed
      ensures if returned then r == None && s.workers[w].Exited? && s.cancelled
              else match r
                   case Some(sid) => s.workers[w] == Idle(sid) && sid !in s.closed && wait == c.minBackoff
                   case None => s.workers[w].Dialing? && s.workers[w].backoff == wait == Min(backoff * 2, c.maxBackoff)
    {
      hide Run, Start, Classify, CanReturn, NextWorker, Keeps;
      var ok: bool := *;
      if ok {
        r, wait, returned := Some(s.dialled), c.minBackoff, false;
        Act(w, DialOk);
        Others(WorkerAt(w));
        Act(w, SessionUp);
        IsOpen(w);
        return;
      }
      Act(w, DialFail);
      Others(WorkerAt(w));
      Act(w, CountDialFailure);
      Others(WorkerAt(w));
      var done: bool := *;
      if done && s.cancelled {
        Act(w, BackoffDone);
        return None, backoff, true;
      }
      Act(w, BackoffOver);
      return None, Min(backoff * 2, c.maxBackoff), false;
    }

    /** One select of worker with a session, and what follows it. With neither a
        cancelled context nor a target it waits. */
    method Serve(w: nat) returns (keep: bool, returned: bool)
      requires Valid() && w < c.workers && s.workers[w].Idle?
      modifies this
      ensures Valid() && |s.workers| == c.workers && old(s.closed) <= s.closed
      ensures var sid := old(s.workers[w]).sid;
              if returned then !keep && s.workers[w].Exited? && s.cancelled && sid in s.closed
              else if keep then s.workers[w] == Idle(sid) && sid !in s.closed
              else s.workers[w] == Dialing(c.minBackoff, 0) && sid in s.closed
    {
      hide Run, Start, Classify, CanReturn, NextWorker, Keeps;
      var done: bool := *;
      if s.cancelled && (done || s.queue == []) {
        Act(w, WorkerDone);
        Leave(w);
        return false, true;
      }
      if s.queue == [] {
        IsOpen(w);
        return true, false;
      }
      keep, returned := ServeNext(w);
    }

    /** The other branch of the select: a target is received. */
    method ServeNext(w: nat) returns (keep: bool, returned: bool)
      requires Valid() && w < c.workers && s.workers[w].Idle? && s.queue != []
      modifies this
      ensures Valid() && |s.workers| == c.workers && old(s.closed) <= s.closed
      ensures var sid := old(s.workers[w]).sid;
              if returned then !keep && s.workers[w].Exited? && s.cancelled && sid in s.closed
              else if keep then s.workers[w] == Idle(sid) && sid !in s.closed
              else s.workers[w] == Dialing(c.minBackoff, 0) && sid in s.closed
    {
      hide Run, Start, Classify, CanReturn, NextWorker, Keeps;
      Act(w, Take);
      Others(WorkerAt(w));
      var stopped := s.cancelled;
      Act(w, Check);
      Others(WorkerAt(w));
      if stopped {
        Act(w, Drop);
        Leave(w);
        return false, true;
      }
      var reuse := RunJob(w);
      if reuse {
        return true, false;
      }
      Others(WorkerAt(w));
      Act(w, Discard);
      Others(WorkerAt(w));
      Act(w, SessionDown);
      return false, false;
    }

    /** worker, for at most `passes` passes of its loop. Whatever the others do, the
        session in its variable is open and its own; when it returns, the context is
        cancelled, and every session that is still open belongs to another worker. */
    method Work(w: nat, passes: nat) returns (r: Option<nat>, returned: bool)
      requires Valid() && w < c.workers && s.workers[w] == Dialing(c.minBackoff, 0)
      modifies this
      ensures Valid() && |s.workers| == c.workers
      ensures returned ==> forall sid: nat :: sid < s.dialled && sid !in s.closed ==> OwnedByOther(s.workers, w, sid)
      ensures if returned then r == None && s.workers[w].Exited? && s.cancelled
              else if r.Some? then s.workers[w] == Idle(r.value) && r.value !in s.closed
              else s.workers[w].Dialing?
    {
      hide Run, Start, Place, Min;
      r, returned := None, false;
      var backoff := c.minBackoff;
      for pass := 0 to passes
        invariant Valid() && |s.workers| == c.workers
        invariant if r.Some? then s.workers[w] == Idle(r.value) && backoff == c.minBackoff
                  else s.workers[w].Dialing? && s.workers[w].backoff == backoff
      {
        Others(WorkerAt(w));
        if r.None? {
          r, backoff, returned := Connect(w, backoff);
          if returned {
            OthersOwn(w);
            return;
          }
          if r.None? {
            continue;
          }
          Others(WorkerAt(w));
        }
        var keep;
        keep, returned := Serve(w);
        if !keep {
          r := None;
        }
        if returned {
          OthersOwn(w);
          return;
        }
      }
      IsOpen(w);
    }

    /** No open session is left behind by a worker that has returned. */
    lemma OthersOwn(w: nat)
      requires Valid() && w < c.workers && s.workers[w].Exited?
      ensures forall sid: nat :: sid < s.dialled && sid !in s.closed ==> OwnedByOther(s.workers, w, sid)
    {
      hide Run, Start;
      OwnershipAlways(c, trace, events, |events|);
      forall sid: nat | sid < s.dialled && sid !in s.closed ensures OwnedByOther(s.workers, w, sid) {
        assert Owned(s.workers, sid);
      }
    }

    lemma AnyResult()
      ensures exists r :: CanReturn(r)
    {
      assert CanReturn(Failed(true, true));
    }

    /** A session in hand is open, unless it is about to be discarded. */
    lemma IsOpen(w: nat)
      requires Valid() && w < c.workers
      ensures |s.workers| == c.workers
      ensures s.workers[w].Running? || s.workers[w].Idle? ==> s.workers[w].sid !in s.closed
      ensures s.workers[w].Discarding? ==> s.workers[w].sid in s.closed
    {
      hide Run, Start;
      OwnershipAlways(c, trace, events, |events|);
    }
  }
}
