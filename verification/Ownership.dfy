/** Who owns which session, and how long a worker waits between dials. */
module Ownership {
  import opened Wrappers
  import opened Session
  import opened Scheduler
  import opened Tokens

  // ---- Sessions -----------------------------------------------------------------

  predicate HasSession(x: Worker) {
    HasTarget(x) || x.Connected? || x.Idle? || x.Discarding? || x.Leaving?
  }

  /** runJob's answer to "can the session be reused" is exact: it says yes
      precisely for the results after which Run has left the session open. */
  lemma ReuseIsExact(r: RunResult)
    requires CanReturn(r)
    ensures Keeps(Classify(r)) <==> LeavesOpen(r)
  {}

  /** Whether the worker's own bookkeeping says its session is open. */
  predicate BelievesOpen(x: Worker)
    requires HasSession(x)
  {
    match x
    case Ran(_, _, r) => LeavesOpen(r)
    case Releasing(_, _, keep) => keep
    case Discarding(_) => false
    case _ => true
  }

  ghost predicate SessionsOwned(s: State) {
    // No session is shared, and every held session was dialled.
    && (forall v, w :: 0 <= v < w < |s.workers| && HasSession(s.workers[v]) && HasSession(s.workers[w]) ==>
          s.workers[v].sid != s.workers[w].sid)
    && (forall w :: 0 <= w < |s.workers| && HasSession(s.workers[w]) ==> s.workers[w].sid < s.dialled)
    // A worker knows exactly whether its session is open.
    && (forall w :: 0 <= w < |s.workers| && HasSession(s.workers[w]) ==>
          (s.workers[w].sid !in s.closed <==> BelievesOpen(s.workers[w])))
    && (forall w :: 0 <= w < |s.workers| && s.workers[w].Ran? ==> CanReturn(s.workers[w].result))
    // Nothing is leaked: an open session has an owner.
    && (forall sid: nat :: sid < s.dialled && sid !in s.closed ==> Owned(s.workers, sid))
    && (forall sid :: sid in s.closed ==> sid < s.dialled)
  }

  ghost predicate Owned(ws: seq<Worker>, sid: nat) {
    exists w :: 0 <= w < |ws| && HasSession(ws[w]) && ws[w].sid == sid
  }

  /** What a worker event does to the sessions: it dials one, closes its own one,
      or lets go of a closed one. */
  lemma SessionEffect(c: Settings, s: State, w: nat, we: WorkerEvent, s': State)
    requires Shape(c, s) && SessionsOwned(s) && w < c.workers && NextWorker(c, s, w, we) == Some(s')
    ensures s'.workers == s.workers[w := s'.workers[w]]
    ensures var at, x := s.workers[w], s'.workers[w];
            && s'.dialled == s.dialled + Unit(we.DialOk?)
            && (HasSession(x) && !we.DialOk? ==> HasSession(at) && x.sid == at.sid)
            && (we.DialOk? ==>
                  HasSession(x) && !HasSession(at) && x.sid == s.dialled && s'.closed == s.closed && BelievesOpen(x))
            && (!we.DialOk? ==> s'.closed == s.closed || (HasSession(at) && s'.closed == s.closed + {at.sid}))
            && (HasSession(at) && !HasSession(x) ==> at.sid in s'.closed)
            && (HasSession(x) && !we.DialOk? ==> (x.sid !in s'.closed <==> BelievesOpen(x)))
            && (x.Ran? ==> CanReturn(x.result))
  {
    hide Classify, Filed, Min;
    WorkerFrame(c, s, w, we, s');
    var at := s.workers[w];
    if at.Ran? {
      ReuseIsExact(at.result);
      KeepingIsOpen(at.result);
    }
  }

  lemma KeepingIsOpen(r: RunResult)
    ensures Classify(r).Good? || Classify(r).Garbled? ==> LeavesOpen(r)
  {}

  lemma OwnedKept(ws: seq<Worker>, w: nat, x: Worker, sid: nat)
    requires w < |ws| && Owned(ws, sid)
    requires HasSession(ws[w]) && ws[w].sid == sid ==> HasSession(x) && x.sid == sid
    ensures Owned(ws[w := x], sid)
  {
    var v :| 0 <= v < |ws| && HasSession(ws[v]) && ws[v].sid == sid;
    assert ws[w := x][v] == if v == w then x else ws[v];
  }

  lemma OwnershipOfWorkerEvent(c: Settings, s: State, w: nat, we: WorkerEvent, s': State)
    requires Shape(c, s) && SessionsOwned(s) && w < c.workers && NextWorker(c, s, w, we) == Some(s')
    ensures SessionsOwned(s')
  {
    hide NextWorker, Classify, LeavesOpen, CanReturn, HasSession, BelievesOpen, Owned;
    SessionEffect(c, s, w, we, s');
    var at, x := s.workers[w], s'.workers[w];
    forall sid: nat | sid < s'.dialled && sid !in s'.closed ensures Owned(s'.workers, sid) {
      if we.DialOk? && sid == s.dialled {
        NewOwner(s'.workers, w);
      } else {
        OwnedKept(s.workers, w, x, sid);
      }
    }
  }

  lemma NewOwner(ws: seq<Worker>, w: nat)
    requires w < |ws| && HasSession(ws[w])
    ensures Owned(ws, ws[w].sid)
  {}

  lemma OwnershipKept(c: Settings, s: State, e: Event, s': State)
    requires Shape(c, s) && SessionsOwned(s) && Steps(c, s, e, s')
    ensures SessionsOwned(s')
  {
    hide NextWorker;
    match e
    case Cancel =>
    case OfTimer(i, te) => assert s'.workers == s.workers && s'.closed == s.closed && s'.dialled == s.dialled;
    case OfWorker(w, we) => OwnershipOfWorkerEvent(c, s, w, we, s');
  }

  /** In every state of every run: no session is shared, none is leaked, none is
      used after it was closed. */
  lemma {:induction false} OwnershipAlways(c: Settings, trace: seq<State>, events: seq<Event>, k: nat)
    requires Run(c, trace, events) && trace[0] == Start(c) && k < |trace|
    ensures Shape(c, trace[k]) && SessionsOwned(trace[k])
  {
    hide NextWorker, NextTimer;
    if k > 0 {
      OwnershipAlways(c, trace, events, k - 1);
      ShapeKept(c, trace[k - 1], events[k - 1], trace[k]);
      OwnershipKept(c, trace[k - 1], events[k - 1], trace[k]);
    }
  }

  /** Run is only ever called on an open session that no other worker holds. */
  lemma RunsOnOpenSessions(c: Settings, trace: seq<State>, events: seq<Event>, k: nat, w: nat)
    requires Run(c, trace, events) && trace[0] == Start(c) && k < |trace| && w < c.workers
    requires w < |trace[k].workers| && trace[k].workers[w].Running?
    ensures trace[k].workers[w].sid !in trace[k].closed
    ensures forall v :: 0 <= v < |trace[k].workers| && v != w && HasSession(trace[k].workers[v]) ==>
              trace[k].workers[v].sid != trace[k].workers[w].sid
  {
    hide Run, Start;
    OwnershipAlways(c, trace, events, k);
  }

  // ---- Backoff --------------------------------------------------------------------

  function Pow2(n: nat): nat { if n == 0 then 1 else 2 * Pow2(n - 1) }

  /** The wait after `k` earlier failures in a row. */
  function Delay(c: Settings, k: nat): nat { Min(c.minBackoff * Pow2(k), c.maxBackoff) }

  lemma DelayDoubles(c: Settings, k: nat)
    ensures Min(Delay(c, k) * 2, c.maxBackoff) == Delay(c, k + 1)
  {
    assert c.minBackoff * Pow2(k + 1) == 2 * (c.minBackoff * Pow2(k)) by {
      assert c.minBackoff * (2 * Pow2(k)) == 2 * (c.minBackoff * Pow2(k));
    }
  }

  /** The failed dials of `w` since its last successful one. */
  function FailuresInARow(events: seq<Event>, w: nat): nat {
    if events == [] then 0
    else
      var e, before := events[|events| - 1], FailuresInARow(events[..|events| - 1], w);
      if e == OfWorker(w, DialFail) then before + 1
      else if e == OfWorker(w, DialOk) then 0
      else before
  }

  /** A worker between dials knows how often it failed in a row and waits
      accordingly; a worker with a session has no failures on its account. */
  ghost predicate BackoffRight(c: Settings, x: Worker, failures: nat) {
    match x
    case Dialing(b, f) => f == failures && b == Delay(c, f)
    case DialFailed(b, f) => f + 1 == failures && b == Delay(c, f)
    case BackingOff(b, f) => f + 1 == failures && b == Delay(c, f)
    case Exited => true
    case _ => failures == 0
  }

  lemma BackoffStep(c: Settings, s: State, e: Event, s': State, w: nat, failures: nat)
    requires Steps(c, s, e, s') && w < c.workers && 0 < c.minBackoff <= c.maxBackoff
    requires BackoffRight(c, s.workers[w], failures)
    ensures w < |s'.workers|
    ensures BackoffRight(c, s'.workers[w],
              if e == OfWorker(w, DialFail) then failures + 1 else if e == OfWorker(w, DialOk) then 0 else failures)
  {
    hide NextWorker, NextTimer, BackoffRight;
    match e
    case Cancel =>
    case OfTimer(i, te) => TimerFrame(c, s, i, te, s');
    case OfWorker(v, we) =>
      WorkerFrame(c, s, v, we, s');
      if v == w {
        WorkerBackoff(c, s, w, we, s', failures);
      }
  }

  lemma WorkerBackoff(c: Settings, s: State, w: nat, we: WorkerEvent, s': State, failures: nat)
    requires Shape(c, s) && w < c.workers && NextWorker(c, s, w, we) == Some(s') && 0 < c.minBackoff <= c.maxBackoff
    requires BackoffRight(c, s.workers[w], failures)
    ensures |s'.workers| == c.workers
    ensures BackoffRight(c, s'.workers[w], if we.DialFail? then failures + 1 else if we.DialOk? then 0 else failures)
  {
    hide Classify, Filed, CanReturn, LeavesOpen, Delay, Min;
    FirstDelay(c);
    if we.BackoffOver? {
      DelayDoubles(c, s.workers[w].fails);
    }
  }

  lemma FirstDelay(c: Settings)
    requires c.minBackoff <= c.maxBackoff
    ensures Delay(c, 0) == c.minBackoff
  {}

  lemma {:induction false} BackoffAlways(c: Settings, trace: seq<State>, events: seq<Event>, k: nat, w: nat)
    requires Run(c, trace, events) && trace[0] == Start(c) && k < |trace| && w < c.workers
    requires 0 < c.minBackoff <= c.maxBackoff
    ensures w < |trace[k].workers| && BackoffRight(c, trace[k].workers[w], FailuresInARow(events[..k], w))
  {
    hide NextWorker, NextTimer, BackoffRight;
    if k == 0 {
      FirstDelay(c);
      BackoffAtStart(c, w);
    } else {
      BackoffAlways(c, trace, events, k - 1, w);
      assert events[..k][..k - 1] == events[..k - 1];
      BackoffStep(c, trace[k - 1], events[k - 1], trace[k], w, FailuresInARow(events[..k - 1], w));
    }
  }

  lemma BackoffAtStart(c: Settings, w: nat)
    requires w < c.workers && c.minBackoff <= c.maxBackoff
    ensures BackoffRight(c, Start(c).workers[w], 0)
  {}

  /** Whenever a worker waits after the n-th failed dial in a row, it waits
      min(minBackoff * 2^(n-1), maxBackoff): within the bounds, and from the
      minimum again after every success. */
  lemma BackoffClosedForm(c: Settings, trace: seq<State>, events: seq<Event>, k: nat, w: nat)
    requires Run(c, trace, events) && trace[0] == Start(c) && k < |trace| && w < c.workers
    requires 0 < c.minBackoff <= c.maxBackoff && w < |trace[k].workers| && trace[k].workers[w].BackingOff?
    ensures FailuresInARow(events[..k], w) >= 1
    ensures trace[k].workers[w].backoff
         == Min(c.minBackoff * Pow2(FailuresInARow(events[..k], w) - 1), c.maxBackoff)
    ensures c.minBackoff <= trace[k].workers[w].backoff <= c.maxBackoff
  {
    hide Start, NextTimer, NextWorker;
    BackoffAlways(c, trace, events, k, w);
    PowerPositive(FailuresInARow(events[..k], w) - 1);
    var p := Pow2(FailuresInARow(events[..k], w) - 1);
    assert c.minBackoff * p >= c.minBackoff;
  }

  /** The wait doubles with every failure, up to the maximum, and starts from the minimum
      after a session was lost. */
  lemma WaitsDouble(c: Settings, s: State, w: nat, s': State)
    requires w < |s.workers|
    ensures Steps(c, s, OfWorker(w, BackoffOver), s') ==>
              && s.workers[w].BackingOff? && w < |s'.workers|
              && var b := s.workers[w].backoff;
                 s'.workers[w] == Dialing(if 2 * b <= c.maxBackoff then 2 * b else c.maxBackoff, s.workers[w].fails + 1)
    ensures Steps(c, s, OfWorker(w, SessionDown), s') ==> w < |s'.workers| && s'.workers[w] == Dialing(c.minBackoff, 0)
    ensures Pow2(0) == 1 && forall n: nat :: n > 0 ==> Pow2(n) == 2 * Pow2(n - 1)
  {
    hide Classify, Filed, CanReturn, LeavesOpen;
  }

  lemma {:induction false} PowerPositive(n: nat)
    ensures Pow2(n) >= 1
  {
    if n > 0 {
      PowerPositive(n - 1);
    }
  }
}
