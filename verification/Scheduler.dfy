/** The per-router scheduler of remote/scheduler.go as a transition system: one
    timer goroutine per target, N workers that each own a session, a bounded
    FIFO queue and one pending flag per target. Every step that another goroutine
    could observe is a separate event, so every interleaving is a run. */
module Scheduler {
  import opened Machine
  import opened Wrappers
  import opened Huawei
  import opened PingOutput
  import opened Session

  /** The scheduler's parameters. Targets are numbered, so they are distinct. */
  datatype Settings = Settings(targets: nat, workers: nat, minBackoff: nat, maxBackoff: nat)

  /** `max(len(targets), 1)`. */
  function Capacity(c: Settings): nat { if c.targets >= 1 then c.targets else 1 }

  // ---- Program counters -------------------------------------------------------

  /** Where a timer goroutine stands, in `schedule` and in `enqueue`. */
  datatype Timer =
    | Waiting      // in a select on the context and its timer or ticker
    | Ticked       // the timer fired; the compare-and-swap comes next
    | Sending      // the swap succeeded; the channel send comes next
    | QueueFull    // the send found no room; the flag is to be cleared
    | Skipping     // the skip is decided but not counted
    | Stopped

  /** Where a worker goroutine stands, in `worker` and in `runJob`. */
  datatype Worker =
    | Dialing(backoff: nat, fails: nat)             // no session; in dial
    | DialFailed(backoff: nat, fails: nat)          // the failure is not counted yet
    | BackingOff(backoff: nat, fails: nat)          // in a select on the context and the wait
    | Connected(sid: nat)                           // a session, not yet in sessions_up
    | Idle(sid: nat)                                // in a select on the context and the queue
    | Dequeued(sid: nat, target: nat)               // before the ctx.Err check
    | Dropping(sid: nat, target: nat)               // stopped; the flag is to be cleared
    | Running(sid: nat, target: nat)                // in Run
    | Ran(sid: nat, target: nat, result: RunResult) // Run returned; nothing counted
    | Recording(sid: nat, target: nat, ping: PingResult) // sent counted; Record comes next
    | Releasing(sid: nat, target: nat, keep: bool)  // runJob's deferred clear of the flag
    | Discarding(sid: nat)                          // the session is to be closed
    | Discarded                                     // closed, still in sessions_up
    | Leaving(sid: nat)                             // returning; the deferred close comes next
    | Left                                          // closed by the defer, still in sessions_up
    | Exited

  predicate HasTarget(x: Worker) {
    x.Dequeued? || x.Dropping? || x.Running? || x.Ran? || x.Recording? || x.Releasing?
  }

  /** The history of one target. `runs` holds the parsed results in the order Run
      returned them; `recorded` those handed to the recorder; `sent` is the
      target's counter. */
  datatype Ledger = Ledger(
    fires: nat, skips: nat, enqueued: nat, drops: nat,
    timeouts: nat, failures: nat, parseErrors: nat,
    runs: seq<PingResult>, recorded: seq<PingResult>, sent: nat)

  datatype State = State(
    cancelled: bool,
    timers: seq<Timer>,
    workers: seq<Worker>,
    queue: seq<nat>,
    pending: seq<bool>,
    ledger: seq<Ledger>,
    dialled: nat,         // sessions ever dialled; they are numbered from 0
    closed: set<nat>,     // the closed ones
    dialFailures: nat,
    sessionsUp: int,      // metrics
    skipped: nat,
    connectErrors: nat,
    timeoutErrors: nat,
    parseErrors: nat)

  /** A scheduler right after Start, for targets that are fresh except that `stale`
      ones carry a pending flag from an earlier life. */
  function StartWith(c: Settings, stale: seq<bool>): State
    requires |stale| == c.targets
  {
    State(false, seq(c.targets, _ => Waiting), seq(c.workers, _ => Dialing(c.minBackoff, 0)), [],
          stale, seq(c.targets, _ => Ledger(0, 0, 0, 0, 0, 0, 0, [], [], 0)),
          0, {}, 0, 0, 0, 0, 0, 0)
  }

  function Start(c: Settings): State { StartWith(c, seq(c.targets, _ => false)) }

  // ---- Events -----------------------------------------------------------------

  datatype TimerEvent = Tick | TimerDone | Swap | Send | Undo | CountSkip

  datatype WorkerEvent =
    | DialOk | DialFail | CountDialFailure | BackoffOver | BackoffDone | SessionUp
    | Take | WorkerDone | Check | Drop | Return(result: RunResult) | Account | Record | Release
    | Discard | SessionDown | LeaveClose | LeaveDown

  datatype Event = Cancel | OfTimer(i: nat, te: TimerEvent) | OfWorker(w: nat, we: WorkerEvent)

  /** One step of a timer goroutine; None when it is not at that step. */
  function NextTimer(c: Settings, s: State, i: nat, te: TimerEvent): Option<State>
    requires i < |s.timers| == |s.pending| == |s.ledger|
  {
    var at, l := s.timers[i], s.ledger[i];
    match te
    case Tick =>
      if !at.Waiting? then None
      else Some(s.(timers := s.timers[i := Ticked], ledger := s.ledger[i := l.(fires := l.fires + 1)]))
    case TimerDone =>
      if !at.Waiting? || !s.cancelled then None
      else Some(s.(timers := s.timers[i := Stopped]))
    case Swap =>
      if !at.Ticked? then None
      else if s.pending[i] then
        Some(s.(timers := s.timers[i := Skipping], ledger := s.ledger[i := l.(skips := l.skips + 1)]))
      else
        Some(s.(timers := s.timers[i := Sending], pending := s.pending[i := true]))
    case Send =>
      if !at.Sending? then None
      else if |s.queue| < Capacity(c) then
        Some(s.(timers := s.timers[i := Waiting], queue := s.queue + [i],
                ledger := s.ledger[i := l.(enqueued := l.enqueued + 1)]))
      else Some(s.(timers := s.timers[i := QueueFull]))
    case Undo =>
      if !at.QueueFull? then None
      else Some(s.(timers := s.timers[i := Skipping], pending := s.pending[i := false],
                   ledger := s.ledger[i := l.(skips := l.skips + 1)]))
    case CountSkip =>
      if !at.Skipping? then None
      else Some(s.(timers := s.timers[i := Waiting], skipped := s.skipped + 1))
  }

  /** The cases runJob tells apart: a timeout (`keep` when the session survived
      it), any other error, output that does not parse, and a result. */
  datatype Outcome = Overdue(keep: bool) | Broken | Garbled | Good(ping: PingResult)

  function Classify(r: RunResult): Outcome {
    match r
    case Failed(timeout, closed) => if timeout then Overdue(!closed) else Broken
    case Output(out) =>
      match Parse(out)
      case Err(_) => Garbled
      case Ok(ping) => Good(ping)
  }

  /** What runJob reports about the session. */
  function Keeps(o: Outcome): bool { if o.Overdue? then o.keep else !o.Broken? }

  /** How a returned Run enters the target's history. */
  function Filed(l: Ledger, o: Outcome): Ledger {
    match o
    case Overdue(_) => l.(timeouts := l.timeouts + 1)
    case Broken => l.(failures := l.failures + 1)
    case Garbled => l.(parseErrors := l.parseErrors + 1)
    case Good(ping) => l.(runs := l.runs + [ping])
  }

  function Min(a: nat, b: nat): nat { if a < b then a else b }

  /** One step of a worker goroutine; None when it is not at that step. */
  function NextWorker(c: Settings, s: State, w: nat, we: WorkerEvent): Option<State>
    requires w < |s.workers| && |s.pending| == |s.ledger|
    requires HasTarget(s.workers[w]) ==> s.workers[w].target < |s.ledger|
  {
    var at := s.workers[w];
    match we
    case DialOk =>
      if !at.Dialing? then None
      else Some(s.(workers := s.workers[w := Connected(s.dialled)], dialled := s.dialled + 1))
    case DialFail =>
      if !at.Dialing? then None
      else Some(s.(workers := s.workers[w := DialFailed(at.backoff, at.fails)], dialFailures := s.dialFailures + 1))
    case CountDialFailure =>
      if !at.DialFailed? then None
      else Some(s.(workers := s.workers[w := BackingOff(at.backoff, at.fails)], connectErrors := s.connectErrors + 1))
    case BackoffOver =>
      if !at.BackingOff? then None
      else Some(s.(workers := s.workers[w := Dialing(Min(at.backoff * 2, c.maxBackoff), at.fails + 1)]))
    case BackoffDone =>
      if !at.BackingOff? || !s.cancelled then None
      else Some(s.(workers := s.workers[w := Exited]))
    case SessionUp =>
      if !at.Connected? then None
      else Some(s.(workers := s.workers[w := Idle(at.sid)], sessionsUp := s.sessionsUp + 1))
    case Take =>
      if !at.Idle? || s.queue == [] then None
      else Some(s.(workers := s.workers[w := Dequeued(at.sid, s.queue[0])], queue := s.queue[1..]))
    case WorkerDone =>
      if !at.Idle? || !s.cancelled then None
      else Some(s.(workers := s.workers[w := Leaving(at.sid)]))
    case Check =>
      if !at.Dequeued? then None
      else if s.cancelled then
        var l := s.ledger[at.target];
        Some(s.(workers := s.workers[w := Dropping(at.sid, at.target)],
                ledger := s.ledger[at.target := l.(drops := l.drops + 1)]))
      else Some(s.(workers := s.workers[w := Running(at.sid, at.target)]))
    case Drop =>
      if !at.Dropping? then None
      else Some(s.(workers := s.workers[w := Leaving(at.sid)], pending := s.pending[at.target := false]))
    case Return(r) =>
      if !at.Running? || !CanReturn(r) then None
      else Some(s.(workers := s.workers[w := Ran(at.sid, at.target, r)],
                   closed := if LeavesOpen(r) then s.closed else s.closed + {at.sid},
                   ledger := s.ledger[at.target := Filed(s.ledger[at.target], Classify(r))]))
    case Account =>
      if !at.Ran? then None
      else
        var o := Classify(at.result);
        var released := s.workers[w := Releasing(at.sid, at.target, Keeps(o))];
        (match o
         case Overdue(_) => Some(s.(workers := released, timeoutErrors := s.timeoutErrors + 1))
         case Broken => Some(s.(workers := released, connectErrors := s.connectErrors + 1))
         case Garbled => Some(s.(workers := released, parseErrors := s.parseErrors + 1))
         case Good(ping) =>
           var l := s.ledger[at.target];
           Some(s.(workers := s.workers[w := Recording(at.sid, at.target, ping)],
                   ledger := s.ledger[at.target := l.(sent := (l.sent + ping.sent) % TWO_TO_THE_64)])))
    case Record =>
      if !at.Recording? then None
      else
        var l := s.ledger[at.target];
        Some(s.(workers := s.workers[w := Releasing(at.sid, at.target, true)],
                ledger := s.ledger[at.target := l.(recorded := l.recorded + [at.ping])]))
    case Release =>
      if !at.Releasing? then None
      else Some(s.(workers := s.workers[w := if at.keep then Idle(at.sid) else Discarding(at.sid)],
                   pending := s.pending[at.target := false]))
    case Discard =>
      if !at.Discarding? then None
      else Some(s.(workers := s.workers[w := Discarded], closed := s.closed + {at.sid}))
    case SessionDown =>
      if !at.Discarded? then None
      else Some(s.(workers := s.workers[w := Dialing(c.minBackoff, 0)], sessionsUp := s.sessionsUp - 1))
    case LeaveClose =>
      if !at.Leaving? then None
      else Some(s.(workers := s.workers[w := Left], closed := s.closed + {at.sid}))
    case LeaveDown =>
      if !at.Left? then None
      else Some(s.(workers := s.workers[w := Exited], sessionsUp := s.sessionsUp - 1))
  }

  // ---- Runs -------------------------------------------------------------------

  /** The sizes never change, and every target mentioned exists. */
  ghost predicate Shape(c: Settings, s: State) {
    && |s.timers| == c.targets && |s.pending| == c.targets && |s.ledger| == c.targets
    && |s.workers| == c.workers
    && (forall k :: 0 <= k < |s.queue| ==> s.queue[k] < c.targets)
    && (forall w :: 0 <= w < |s.workers| && HasTarget(s.workers[w]) ==> s.workers[w].target < c.targets)
  }

  /** `s'` follows from `s` by the event `e`. */
  ghost predicate Steps(c: Settings, s: State, e: Event, s': State) {
    && Shape(c, s)
    && match e {
         case Cancel => !s.cancelled && s' == s.(cancelled := true)
         case OfTimer(i, te) => i < c.targets && NextTimer(c, s, i, te) == Some(s')
         case OfWorker(w, we) => w < c.workers && NextWorker(c, s, w, we) == Some(s')
       }
  }

  /** `trace` is the sequence of states that `events` leads through. */
  ghost predicate Run(c: Settings, trace: seq<State>, events: seq<Event>) {
    && |trace| == |events| + 1
    && forall k :: 0 <= k < |events| ==> Steps(c, trace[k], events[k], trace[k + 1])
  }

  /** A timer event touches its own timer and its own target only. */
  lemma TimerFrame(c: Settings, s: State, i: nat, te: TimerEvent, s': State)
    requires Shape(c, s) && i < c.targets && NextTimer(c, s, i, te) == Some(s')
    ensures Shape(c, s')
    ensures s'.timers == s.timers[i := s'.timers[i]] && s'.workers == s.workers
    ensures s'.ledger == s.ledger[i := s'.ledger[i]] && s'.pending == s.pending[i := s'.pending[i]]
    ensures s'.cancelled == s.cancelled
  {}

  lemma WorkerShape(c: Settings, s: State, w: nat, x: Worker, s': State)
    requires Shape(c, s) && w < c.workers && s'.workers == s.workers[w := x]
    requires HasTarget(x) ==> x.target < c.targets
    requires s'.timers == s.timers && |s'.pending| == |s.pending| && |s'.ledger| == |s.ledger|
    requires s'.queue == s.queue || (s.queue != [] && s'.queue == s.queue[1..])
    ensures Shape(c, s')
  {}

  /** A worker event touches its own worker and the target that worker holds. */
  lemma WorkerFrame(c: Settings, s: State, w: nat, we: WorkerEvent, s': State)
    requires Shape(c, s) && w < c.workers && NextWorker(c, s, w, we) == Some(s')
    ensures s'.workers == s.workers[w := s'.workers[w]] && s'.timers == s.timers
    ensures HasTarget(s'.workers[w]) ==> s'.workers[w].target < c.targets
    ensures |s'.pending| == |s.pending| && |s'.ledger| == |s.ledger|
    ensures s'.queue == s.queue || (s.queue != [] && s'.queue == s.queue[1..])
    ensures s'.cancelled == s.cancelled
  {
    hide Classify, Filed, CanReturn, LeavesOpen, Min;
  }

  lemma ShapeKept(c: Settings, s: State, e: Event, s': State)
    requires Steps(c, s, e, s')
    ensures Shape(c, s')
  {
    hide NextTimer, NextWorker;
    match e
    case Cancel =>
    case OfTimer(i, te) => TimerFrame(c, s, i, te, s');
    case OfWorker(w, we) =>
      WorkerFrame(c, s, w, we, s');
      WorkerShape(c, s, w, s'.workers[w], s');
  }
}
