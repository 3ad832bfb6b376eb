/** The token invariant of the scheduler: a target's pending flag is set exactly
    while one goroutine or one queue slot holds the target. */
module Tokens {
  import opened Wrappers
  import opened Sums
  import opened Session
  import opened Scheduler

  // ---- Weighing the workers -----------------------------------------------------

  /** What a worker can contribute to a balance. */
  datatype Tally =
    | Token(t: nat)      // holds the target t
    | Live(t: nat)       // holds t, and t's run has no outcome yet
    | OwesSent(t: nat)   // sent packets of t not yet counted
    | OwesRecord(t: nat) // a result of t not yet recorded
    | Up                 // counted in sessions_up
    | OwesConnect | OwesTimeout | OwesParse // an error not yet counted

  function Unit(b: bool): nat { if b then 1 else 0 }

  function Weight(k: Tally, x: Worker): nat {
    match k
    case Token(t) => Unit(HasTarget(x) && x.target == t)
    case Live(t) => Unit((x.Dequeued? || x.Running?) && x.target == t)
    case OwesSent(t) =>
      if x.Ran? && x.target == t && Classify(x.result).Good? then Classify(x.result).ping.sent else 0
    case OwesRecord(t) =>
      Unit((x.Recording? && x.target == t) || (x.Ran? && x.target == t && Classify(x.result).Good?))
    case Up =>
      Unit(HasTarget(x) || x.Idle? || x.Discarding? || x.Discarded? || x.Leaving? || x.Left?)
    case OwesConnect => Unit(x.DialFailed? || (x.Ran? && Classify(x.result).Broken?))
    case OwesTimeout => Unit(x.Ran? && Classify(x.result).Overdue?)
    case OwesParse => Unit(x.Ran? && Classify(x.result).Garbled?)
  }

  function Column(k: Tally, ws: seq<Worker>): seq<nat> {
    seq(|ws|, i requires 0 <= i < |ws| => Weight(k, ws[i]))
  }

  function Total(k: Tally, ws: seq<Worker>): nat { Sum(Column(k, ws)) }

  /** When one worker moves on, a total changes by the difference of its weights. */
  lemma Moved(k: Tally, ws: seq<Worker>, w: nat, x: Worker)
    requires w < |ws|
    ensures Total(k, ws[w := x]) + Weight(k, ws[w]) == Total(k, ws) + Weight(k, x)
  {
    hide Weight;
    assert Column(k, ws[w := x]) == Column(k, ws)[w := Weight(k, x)];
    SumUpdate(Column(k, ws), w, Weight(k, x));
  }

  lemma {:induction false} AllDialing(k: Tally, ws: seq<Worker>)
    requires forall w :: 0 <= w < |ws| ==> ws[w].Dialing?
    ensures Total(k, ws) == 0
  {
    hide Classify;
    SumZero(Column(k, ws));
  }

  // ---- The token invariant ----------------------------------------------------------

  function TimerToken(x: Timer): nat { Unit(x.Sending? || x.QueueFull?) }

  /** Everything that holds the target `t`: its timer between the swap and the
      send, the queue, and the workers. */
  function TokenCount(s: State, t: nat): nat
    requires t < |s.timers|
  {
    TimerToken(s.timers[t]) + multiset(s.queue)[t] + Total(Token(t), s.workers)
  }

  ghost predicate TokensBalance(c: Settings, s: State) {
    Shape(c, s) && forall t: nat :: t < c.targets ==> TokenCount(s, t) == Unit(s.pending[t])
  }

  ghost predicate NeverFull(s: State) {
    forall i :: 0 <= i < |s.timers| ==> !s.timers[i].QueueFull?
  }

  function Elements(q: seq<nat>): set<nat> { set x | x in q }

  lemma {:induction false} DistinctCard(q: seq<nat>)
    requires forall j, k :: 0 <= j < k < |q| ==> q[j] != q[k]
    ensures |Elements(q)| == |q|
  {
    if q != [] {
      DistinctCard(q[1..]);
      assert forall j :: 0 <= j < |q[1..]| ==> q[1..][j] == q[j + 1];
      assert Elements(q) == {q[0]} + Elements(q[1..]);
    }
  }

  function Range(n: nat): (r: set<nat>)
    ensures forall x: nat :: x in r <==> x < n
  {
    if n == 0 then {} else Range(n - 1) + {n - 1}
  }

  lemma {:induction false} RangeCard(n: nat)
    ensures |Range(n)| == n
  {
    if n > 0 {
      RangeCard(n - 1);
      assert Range(n) == Range(n - 1) + {n - 1};
    }
  }

  lemma {:induction false} SubsetCard(a: set<nat>, b: set<nat>)
    requires a <= b
    ensures |a| <= |b|
  {
    if a != {} {
      var x :| x in a;
      SubsetCard(a - {x}, b - {x});
    }
  }

  lemma OccursInMultiset(q: seq<nat>, j: nat, k: nat)
    requires j < |q| && k < |q|
    ensures multiset(q)[q[j]] >= 1
    ensures j != k && q[j] == q[k] ==> multiset(q)[q[j]] >= 2
  {
    if j != k && q[j] == q[k] {
      var a, b := if j < k then j else k, if j < k then k else j;
      assert q == q[..a] + [q[a]] + q[a + 1..b] + [q[b]] + q[b + 1..];
    }
  }

  /** Numbers below `n` without repetition are at most `n`. */
  lemma DistinctBound(q: seq<nat>, n: nat)
    requires forall k :: 0 <= k < |q| ==> q[k] < n
    requires forall t: nat :: t < n ==> multiset(q)[t] <= 1
    ensures |q| <= n
    ensures forall j, k :: 0 <= j < k < |q| ==> q[j] != q[k]
  {
    forall j, k | 0 <= j < k < |q| ensures q[j] != q[k] {
      OccursInMultiset(q, j, k);
    }
    DistinctCard(q);
    RangeCard(n);
    SubsetCard(Elements(q), Range(n));
  }

  /** A timer that is about to send always finds room. */
  lemma RoomToSend(c: Settings, s: State, i: nat)
    requires TokensBalance(c, s) && i < c.targets && s.timers[i].Sending?
    ensures |s.queue| < Capacity(c)
  {
    var q: seq<nat> := s.queue + [i];
    forall t: nat | t < c.targets ensures multiset(q)[t] <= 1 {
      assert TokenCount(s, t) <= 1;
      assert multiset(q) == multiset(s.queue) + multiset{i};
    }
    DistinctBound(q, c.targets);
  }

  /** The channel holds one target each, and one at least: a send finds room exactly while
      there are fewer in it. */
  lemma SendFits(c: Settings, s: State, i: nat, s': State)
    requires Steps(c, s, OfTimer(i, Send), s') && i < c.targets
    ensures if |s.queue| < c.targets || |s.queue| == 0 then s'.queue == s.queue + [i] && s'.timers[i].Waiting?
            else s'.queue == s.queue && s'.timers[i].QueueFull?
  {}

  lemma QueueAfterTake(q: seq<nat>, t: nat)
    requires q != []
    ensures multiset(q)[t] == multiset(q[1..])[t] + Unit(q[0] == t)
  {
    assert q == [q[0]] + q[1..];
  }

  lemma TokenOfTimerEvent(c: Settings, s: State, i: nat, te: TimerEvent, s': State, t: nat)
    requires TokensBalance(c, s) && i < c.targets && NextTimer(c, s, i, te) == Some(s') && t < c.targets
    ensures |s'.timers| == c.targets == |s'.pending|
    ensures TokenCount(s', t) == Unit(s'.pending[t])
  {
    hide Total, Capacity, Shape;
    assert Shape(c, s);
    SizesOfShape(c, s);
    assert TokenCount(s, t) == Unit(s.pending[t]);
    QueueAfterSend(s.queue, i);
  }

  lemma SizesOfShape(c: Settings, s: State)
    requires Shape(c, s)
    ensures |s.timers| == |s.pending| == |s.ledger| == c.targets && |s.workers| == c.workers
  {}

  lemma QueueAfterSend(q: seq<nat>, i: nat)
    ensures multiset(q + [i]) == multiset(q) + multiset{i}
  {}

  lemma TokenOfWorkerEvent(c: Settings, s: State, w: nat, we: WorkerEvent, s': State, t: nat)
    requires TokensBalance(c, s) && w < c.workers && NextWorker(c, s, w, we) == Some(s') && t < c.targets
    ensures |s'.timers| == c.targets == |s'.pending|
    ensures TokenCount(s', t) == Unit(s'.pending[t])
  {
    hide NextWorker, Weight, Total;
    WorkerFrame(c, s, w, we, s');
    Moved(Token(t), s.workers, w, s'.workers[w]);
    WorkerToken(c, s, w, we, s', t);
    assert TokenCount(s, t) == Unit(s.pending[t]);
    if we.Take? {
      QueueAfterTake(s.queue, t);
    }
    WeightBound(Token(t), s.workers, w);
  }

  /** A token moves from the queue to a worker; a worker that lets go of its token
      clears the flag of that target, and of no other. */
  lemma WorkerToken(c: Settings, s: State, w: nat, we: WorkerEvent, s': State, t: nat)
    requires Shape(c, s) && w < c.workers && NextWorker(c, s, w, we) == Some(s') && t < c.targets
    ensures |s'.workers| == c.workers && t < |s'.pending|
    ensures if we.Take? then s.queue != [] && s'.queue == s.queue[1..] else s'.queue == s.queue
    ensures var before, after := Weight(Token(t), s.workers[w]), Weight(Token(t), s'.workers[w]);
            if we.Take? then after == before + Unit(s.queue[0] == t) && s'.pending[t] == s.pending[t]
            else if after == before then s'.pending[t] == s.pending[t]
            else before == 1 && after == 0 && !s'.pending[t]
  {
    hide Classify, Filed, CanReturn, LeavesOpen, Min;
  }

  lemma WeightBound(k: Tally, ws: seq<Worker>, w: nat)
    requires w < |ws|
    ensures Weight(k, ws[w]) <= Total(k, ws)
  {
    hide Weight;
    SumBounds(Column(k, ws), w);
  }

  lemma TokensKept(c: Settings, s: State, e: Event, s': State)
    requires TokensBalance(c, s) && NeverFull(s) && Steps(c, s, e, s')
    ensures TokensBalance(c, s') && NeverFull(s')
  {
    hide NextWorker, Total, Classify;
    ShapeKept(c, s, e, s');
    match e
    case Cancel =>
      assert forall t: nat :: t < c.targets ==> TokenCount(s', t) == TokenCount(s, t);
    case OfTimer(i, te) =>
      forall t: nat | t < c.targets ensures TokenCount(s', t) == Unit(s'.pending[t]) {
        TokenOfTimerEvent(c, s, i, te, s', t);
      }
      if s.timers[i].Sending? {
        RoomToSend(c, s, i);
      }
    case OfWorker(w, we) =>
      forall t: nat | t < c.targets ensures TokenCount(s', t) == Unit(s'.pending[t]) {
        TokenOfWorkerEvent(c, s, w, we, s', t);
      }
      WorkerFrame(c, s, w, we, s');
  }

  lemma TokensAtStart(c: Settings)
    ensures TokensBalance(c, Start(c)) && NeverFull(Start(c))
  {
    forall t: nat | t < c.targets ensures TokenCount(Start(c), t) == 0 {
      AllDialing(Token(t), Start(c).workers);
    }
  }

  /** In every state of every run, of any number of targets and workers: */
  lemma {:induction false} TokensAlways(c: Settings, trace: seq<State>, events: seq<Event>, k: nat)
    requires Run(c, trace, events) && trace[0] == Start(c) && k < |trace|
    ensures TokensBalance(c, trace[k]) && NeverFull(trace[k])
  {
    if k == 0 {
      TokensAtStart(c);
    } else {
      TokensAlways(c, trace, events, k - 1);
      TokensKept(c, trace[k - 1], events[k - 1], trace[k]);
    }
  }

  // ---- What the balance says -----------------------------------------------------------

  /** Holders of a target, one by one. */
  datatype Holder = AtTimer(i: nat) | InQueue(slot: nat) | AtWorker(w: nat)

  ghost predicate Holds(s: State, h: Holder, t: nat) {
    match h
    case AtTimer(i) => i == t && i < |s.timers| && (s.timers[i].Sending? || s.timers[i].QueueFull?)
    case InQueue(slot) => slot < |s.queue| && s.queue[slot] == t
    case AtWorker(w) => w < |s.workers| && HasTarget(s.workers[w]) && s.workers[w].target == t
  }

  lemma ColumnAt(k: Tally, ws: seq<Worker>, v: nat, w: nat)
    requires v < |ws| && w < |ws| && v != w
    ensures Weight(k, ws[v]) + Weight(k, ws[w]) <= Total(k, ws)
  {
    hide Weight;
    SumTwo(Column(k, ws), if v < w then v else w, if v < w then w else v);
  }

  /** The flag is set exactly while someone holds the target, and never do two:
      a target is not queued twice, not run by two workers, and not run while
      it is queued. */
  ghost predicate OneHolder(s: State, t: nat) {
    t < |s.pending|
    && (s.pending[t] <==> exists h :: Holds(s, h, t))
    && forall g, h :: Holds(s, g, t) && Holds(s, h, t) ==> g == h
  }

  lemma BalanceMeansOneHolder(c: Settings, s: State, t: nat)
    requires TokensBalance(c, s) && t < c.targets
    ensures OneHolder(s, t)
  {
    hide Total;
    assert TokenCount(s, t) == Unit(s.pending[t]);
    forall g, h | Holds(s, g, t) && Holds(s, h, t) ensures g == h && s.pending[t] {
      SameHolder(s, g, h, t);
    }
    if s.pending[t] {
      SomeHolder(s, t);
    }
  }

  lemma HolderWeighs(s: State, h: Holder, t: nat)
    requires t < |s.timers| && Holds(s, h, t)
    ensures match h
            case AtTimer(i) => TimerToken(s.timers[t]) == 1
            case InQueue(slot) => multiset(s.queue)[t] >= 1
            case AtWorker(w) => Total(Token(t), s.workers) >= 1
  {
    if h.AtWorker? {
      WeightBound(Token(t), s.workers, h.w);
    }
  }

  lemma SameHolder(s: State, g: Holder, h: Holder, t: nat)
    requires t < |s.timers| && TokenCount(s, t) <= 1
    requires Holds(s, g, t) && Holds(s, h, t)
    ensures g == h && TokenCount(s, t) == 1
  {
    hide Total;
    HolderWeighs(s, g, t);
    HolderWeighs(s, h, t);
    if g.InQueue? && h.InQueue? {
      OccursInMultiset(s.queue, g.slot, h.slot);
    } else if g.AtWorker? && h.AtWorker? && g.w != h.w {
      ColumnAt(Token(t), s.workers, g.w, h.w);
    }
  }

  lemma SomeHolder(s: State, t: nat)
    requires t < |s.timers| && TokenCount(s, t) > 0
    ensures exists h :: Holds(s, h, t)
  {
    if TimerToken(s.timers[t]) > 0 {
      assert Holds(s, AtTimer(t), t);
    } else if multiset(s.queue)[t] > 0 {
      assert t in s.queue;
      var slot :| 0 <= slot < |s.queue| && s.queue[slot] == t;
      assert Holds(s, InQueue(slot), t);
    } else {
      var col := Column(Token(t), s.workers);
      SumPositive(col);
      var w :| 0 <= w < |col| && col[w] > 0;
      assert Holds(s, AtWorker(w), t);
    }
  }

  /** Over all runs: at most one holder per target, and the flag tells which
      targets have one; the branch of enqueue for a full queue is never taken. */
  lemma TokenInvariant(c: Settings, trace: seq<State>, events: seq<Event>, k: nat)
    requires Run(c, trace, events) && trace[0] == Start(c) && k < |trace|
    ensures Shape(c, trace[k])
    ensures forall t: nat :: t < c.targets ==> OneHolder(trace[k], t)
    ensures forall i :: 0 <= i < c.targets ==> !trace[k].timers[i].QueueFull?
    ensures forall i: nat :: i < c.targets && trace[k].timers[i].Sending? ==> |trace[k].queue| < Capacity(c)
  {
    hide TokenCount, OneHolder, Run;
    TokensAlways(c, trace, events, k);
    forall t: nat | t < c.targets ensures OneHolder(trace[k], t) {
      BalanceMeansOneHolder(c, trace[k], t);
    }
    forall i: nat | i < c.targets && trace[k].timers[i].Sending? ensures |trace[k].queue| < Capacity(c) {
      RoomToSend(c, trace[k], i);
    }
  }

  // ---- A target that is not fresh --------------------------------------------------------

  /** No one holds the stale target, yet its flag is set. */
  ghost predicate Abandoned(c: Settings, s: State, t: nat) {
    && Shape(c, s) && t < c.targets
    && t < |s.pending| && t < |s.timers| && t < |s.ledger|
    && s.pending[t] && TokenCount(s, t) == 0 && s.ledger[t].enqueued == 0
  }

  lemma AbandonedByWorkers(c: Settings, s: State, w: nat, we: WorkerEvent, s': State, t: nat)
    requires Abandoned(c, s, t) && w < c.workers && NextWorker(c, s, w, we) == Some(s')
    ensures TokenCount(s', t) == 0 && s'.pending[t] && s'.ledger[t].enqueued == 0
  {
    hide Total, Classify, CanReturn, LeavesOpen, Min;
    WorkerFrame(c, s, w, we, s');
    Moved(Token(t), s.workers, w, s'.workers[w]);
    WeightBound(Token(t), s.workers, w);
    if we.Take? {
      QueueAfterTake(s.queue, t);
    }
  }

  lemma AbandonedByTimers(c: Settings, s: State, i: nat, te: TimerEvent, s': State, t: nat)
    requires Abandoned(c, s, t) && i < c.targets && NextTimer(c, s, i, te) == Some(s')
    ensures TokenCount(s', t) == 0 && s'.pending[t] && s'.ledger[t].enqueued == 0
  {
    hide Total;
    TimerFrame(c, s, i, te, s');
    assert multiset(s.queue + [i]) == multiset(s.queue) + multiset{i};
  }

  lemma AbandonedKept(c: Settings, s: State, e: Event, s': State, t: nat)
    requires Abandoned(c, s, t) && Steps(c, s, e, s')
    ensures Abandoned(c, s', t)
  {
    hide NextTimer, NextWorker, TokenCount;
    ShapeKept(c, s, e, s');
    match e
    case Cancel => SameTokens(s, s', t);
    case OfTimer(i, te) => AbandonedByTimers(c, s, i, te, s', t);
    case OfWorker(w, we) => AbandonedByWorkers(c, s, w, we, s', t);
  }

  lemma SameTokens(s: State, s': State, t: nat)
    requires t < |s.timers| && s' == s.(cancelled := true)
    ensures TokenCount(s', t) == TokenCount(s, t)
  {}

  /** A target whose flag is left over from an earlier scheduler is never pinged:
      in no run is it enqueued even once. Targets must be fresh. */
  lemma {:induction false} StaleTargetNeverRuns(c: Settings, stale: seq<bool>, trace: seq<State>, events: seq<Event>,
      k: nat, t: nat)
    requires |stale| == c.targets && t < c.targets && stale[t]
    requires Run(c, trace, events) && trace[0] == StartWith(c, stale) && k < |trace|
    ensures Abandoned(c, trace[k], t)
  {
    if k == 0 {
      AllDialing(Token(t), trace[0].workers);
    } else {
      StaleTargetNeverRuns(c, stale, trace, events, k - 1, t);
      AbandonedKept(c, trace[k - 1], events[k - 1], trace[k], t);
    }
  }
}
