/** Conservation: every fire of every timer, every run and every error of the
    scheduler is accounted for, and no error ever becomes loss. */
module Accounts {
  import opened Machine
  import opened Wrappers
  import opened Sums
  import opened Huawei
  import opened Session
  import opened Scheduler
  import opened Tokens

  // ---- The books of one target ------------------------------------------------------

  function SumSent(runs: seq<PingResult>): nat {
    if runs == [] then 0 else SumSent(runs[..|runs| - 1]) + runs[|runs| - 1].sent
  }

  /** The result a worker has obtained and not yet recorded. */
  function OwedPing(x: Worker): Option<PingResult> {
    if x.Recording? then Some(x.ping)
    else if x.Ran? && Classify(x.result).Good? then Some(Classify(x.result).ping)
    else None
  }

  /** Every fire is skipped, enqueued, or still being decided. */
  ghost predicate FireBook(l: Ledger, x: Timer) {
    l.fires == l.skips + l.enqueued + Unit(x.Ticked? || x.Sending? || x.QueueFull?)
  }

  /** Every enqueued run has exactly one outcome, or is queued or running. */
  ghost predicate RunBook(l: Ledger, queued: nat, live: nat) {
    l.enqueued == l.timeouts + l.failures + l.parseErrors + |l.runs| + l.drops + queued + live
  }

  /** Sent packets are those of the parsed runs, up to what is being counted. */
  ghost predicate SentBook(l: Ledger, owed: nat) {
    l.sent < TWO_TO_THE_64 && (l.sent + owed) % TWO_TO_THE_64 == SumSent(l.runs) % TWO_TO_THE_64
  }

  /** The recorder has seen the parsed runs, in order, up to the one in hand. */
  ghost predicate RecordBook(l: Ledger, owed: nat) {
    l.recorded <= l.runs && |l.runs| == |l.recorded| + owed
  }

  ghost predicate TargetBooks(s: State, t: nat) {
    && t < |s.timers| && t < |s.ledger|
    && FireBook(s.ledger[t], s.timers[t])
    && RunBook(s.ledger[t], multiset(s.queue)[t], Total(Live(t), s.workers))
    && SentBook(s.ledger[t], Total(OwesSent(t), s.workers))
    && RecordBook(s.ledger[t], Total(OwesRecord(t), s.workers))
  }

  /** A result in hand is the target's latest run. */
  ghost predicate InHand(s: State) {
    forall w :: 0 <= w < |s.workers| && OwedPing(s.workers[w]).Some? ==>
      var t := s.workers[w].target;
      t < |s.ledger| && s.ledger[t].runs != []
      && s.ledger[t].runs[|s.ledger[t].runs| - 1] == OwedPing(s.workers[w]).value
  }

  ghost predicate Books(c: Settings, s: State) {
    TokensBalance(c, s) && NeverFull(s) && InHand(s) && forall t: nat :: t < c.targets ==> TargetBooks(s, t)
  }

  lemma SumSentAppend(runs: seq<PingResult>, ping: PingResult)
    ensures SumSent(runs + [ping]) == SumSent(runs) + ping.sent
  {
    assert (runs + [ping])[..|runs|] == runs;
  }

  lemma CountedLater(sent: nat, ping: nat, owed: nat)
    requires ping <= owed
    ensures ((sent + ping) % TWO_TO_THE_64 + (owed - ping)) % TWO_TO_THE_64 == (sent + owed) % TWO_TO_THE_64
  {}

  lemma OwedLater(a: nat, b: nat, ping: nat)
    requires a % TWO_TO_THE_64 == b % TWO_TO_THE_64
    ensures (a + ping) % TWO_TO_THE_64 == (b + ping) % TWO_TO_THE_64
  {}

  lemma TimerFireBook(c: Settings, s: State, i: nat, te: TimerEvent, s': State, t: nat)
    requires Shape(c, s) && i < c.targets && NextTimer(c, s, i, te) == Some(s') && t < c.targets
    requires FireBook(s.ledger[t], s.timers[t])
    ensures t < |s'.ledger| && t < |s'.timers| && FireBook(s'.ledger[t], s'.timers[t])
  {
    hide Capacity;
  }

  lemma TimerRunBook(c: Settings, s: State, i: nat, te: TimerEvent, s': State, t: nat)
    requires Shape(c, s) && i < c.targets && NextTimer(c, s, i, te) == Some(s') && t < c.targets
    requires RunBook(s.ledger[t], multiset(s.queue)[t], Total(Live(t), s.workers))
    ensures t < |s'.ledger|
    ensures RunBook(s'.ledger[t], multiset(s'.queue)[t], Total(Live(t), s'.workers))
  {
    hide Total, Capacity;
    assert multiset(s.queue + [i]) == multiset(s.queue) + multiset{i};
  }

  /** A timer changes neither runs nor records nor sent packets. */
  lemma TimerKeepsRuns(c: Settings, s: State, i: nat, te: TimerEvent, s': State, t: nat)
    requires Shape(c, s) && i < c.targets && NextTimer(c, s, i, te) == Some(s') && t < c.targets
    ensures t < |s'.ledger| && s'.workers == s.workers
    ensures s'.ledger[t].runs == s.ledger[t].runs && s'.ledger[t].recorded == s.ledger[t].recorded
    ensures s'.ledger[t].sent == s.ledger[t].sent
  {
    hide Capacity;
  }

  lemma BooksOfTimerEvent(c: Settings, s: State, i: nat, te: TimerEvent, s': State, t: nat)
    requires Books(c, s) && i < c.targets && NextTimer(c, s, i, te) == Some(s') && t < c.targets
    ensures TargetBooks(s', t)
  {
    hide NextTimer, Total, SumSent, RunBook, FireBook, TokensBalance;
    BalanceShape(c, s);
    assert TargetBooks(s, t);
    TimerFireBook(c, s, i, te, s', t);
    TimerRunBook(c, s, i, te, s', t);
    TimerKeepsRuns(c, s, i, te, s', t);
  }

  // ---- Worker events, one book at a time ------------------------------------------------

  lemma WorkerRunBook(c: Settings, s: State, w: nat, we: WorkerEvent, s': State, t: nat)
    requires Shape(c, s) && w < c.workers && NextWorker(c, s, w, we) == Some(s') && t < c.targets
    requires RunBook(s.ledger[t], multiset(s.queue)[t], Total(Live(t), s.workers))
    ensures t < |s'.ledger| && RunBook(s'.ledger[t], multiset(s'.queue)[t], Total(Live(t), s'.workers))
  {
    hide NextWorker, Classify, Total, Weight;
    WorkerFrame(c, s, w, we, s');
    Moved(Live(t), s.workers, w, s'.workers[w]);
    WorkerOutcome(c, s, w, we, s', t);
    if we.Take? {
      QueueAfterTake(s.queue, t);
    }
  }

  function Outcomes(l: Ledger): nat { l.timeouts + l.failures + l.parseErrors + |l.runs| + l.drops }

  /** A run moves from the queue to a worker, and from there to an outcome. */
  lemma WorkerOutcome(c: Settings, s: State, w: nat, we: WorkerEvent, s': State, t: nat)
    requires Shape(c, s) && w < c.workers && NextWorker(c, s, w, we) == Some(s') && t < c.targets
    ensures |s'.workers| == c.workers && t < |s'.ledger| && s'.ledger[t].enqueued == s.ledger[t].enqueued
    ensures we.Take? ==> s.queue != [] && s'.queue == s.queue[1..]
    ensures !we.Take? ==> s'.queue == s.queue
    ensures Outcomes(s'.ledger[t]) + Weight(Live(t), s'.workers[w])
         == Outcomes(s.ledger[t]) + Weight(Live(t), s.workers[w]) + Unit(we.Take? && s.queue[0] == t)
  {
    hide Classify, CanReturn, LeavesOpen, Min, Keeps, Filed;
    if we.Return? {
      FiledOnce(s.ledger[t], Classify(we.result));
    }
  }

  lemma FiledOnce(l: Ledger, o: Outcome)
    ensures Outcomes(Filed(l, o)) == Outcomes(l) + 1 && Filed(l, o).enqueued == l.enqueued
  {}

  lemma WorkerSentBook(c: Settings, s: State, w: nat, we: WorkerEvent, s': State, t: nat)
    requires Shape(c, s) && w < c.workers && NextWorker(c, s, w, we) == Some(s') && t < c.targets
    requires SentBook(s.ledger[t], Total(OwesSent(t), s.workers))
    ensures t < |s'.ledger| && SentBook(s'.ledger[t], Total(OwesSent(t), s'.workers))
  {
    hide Classify, CanReturn, LeavesOpen, Min, Total, Keeps, SumSent;
    WorkerFrame(c, s, w, we, s');
    Moved(OwesSent(t), s.workers, w, s'.workers[w]);
    WeightBound(OwesSent(t), s.workers, w);
    var at, owed := s.workers[w], Total(OwesSent(t), s.workers);
    if at.Ran? && at.target == t && Classify(at.result).Good? {
      CountedLater(s.ledger[t].sent, Classify(at.result).ping.sent, owed);
    } else if at.Running? && at.target == t && we.Return? && Classify(we.result).Good? {
      var ping := Classify(we.result).ping;
      SumSentAppend(s.ledger[t].runs, ping);
      OwedLater(s.ledger[t].sent + owed, SumSent(s.ledger[t].runs), ping.sent);
    }
  }

  lemma WorkerRecordBook(c: Settings, s: State, w: nat, we: WorkerEvent, s': State, t: nat)
    requires Books(c, s) && w < c.workers && NextWorker(c, s, w, we) == Some(s') && t < c.targets
    ensures t < |s'.ledger| && RecordBook(s'.ledger[t], Total(OwesRecord(t), s'.workers))
  {
    hide NextWorker, Classify, Total, Weight, RunBook, FireBook, SentBook, TokensBalance, NeverFull;
    assert TargetBooks(s, t);
    BalanceShape(c, s);
    WorkerFrame(c, s, w, we, s');
    Moved(OwesRecord(t), s.workers, w, s'.workers[w]);
    WorkerRecords(c, s, w, we, s', t);
    var at, l := s.workers[w], s.ledger[t];
    if we.Record? && at.target == t {
      OwedOnce(c, s, w, t);
      assert l.runs[|l.runs| - 1] == at.ping;
      assert l.recorded + [at.ping] <= l.runs;
    }
  }

  /** A result is owed from Return to Record. */
  lemma WorkerRecords(c: Settings, s: State, w: nat, we: WorkerEvent, s': State, t: nat)
    requires Shape(c, s) && w < c.workers && NextWorker(c, s, w, we) == Some(s') && t < c.targets
    ensures |s'.workers| == c.workers && t < |s'.ledger|
    ensures we.Record? ==> s.workers[w].Recording?
    ensures we.Record? && s.workers[w].target == t ==> Weight(OwesRecord(t), s.workers[w]) == 1
    ensures var l, l' := s.ledger[t], s'.ledger[t];
            && l.runs <= l'.runs
            && l'.recorded == (if we.Record? && s.workers[w].target == t then l.recorded
                + [s.workers[w].ping] else l.recorded)
            && |l'.runs| + |l.recorded| + Weight(OwesRecord(t), s.workers[w])
               == |l.runs| + |l'.recorded| + Weight(OwesRecord(t), s'.workers[w])
  {
    hide Classify, CanReturn, LeavesOpen, Min, Keeps;
  }

  /** The only worker that can owe a record of t is the one that holds t. */
  lemma OwedOnce(c: Settings, s: State, w: nat, t: nat)
    requires TokensBalance(c, s) && w < c.workers && t < c.targets
    requires Weight(OwesRecord(t), s.workers[w]) == 1
    ensures Total(OwesRecord(t), s.workers) == 1
  {
    hide Classify;
    assert TokenCount(s, t) == Unit(s.pending[t]);
    SumLeq(Column(OwesRecord(t), s.workers), Column(Token(t), s.workers));
    WeightBound(OwesRecord(t), s.workers, w);
  }

  /** No other worker holds the target of `w`. */
  lemma Alone(c: Settings, s: State, v: nat, w: nat)
    requires TokensBalance(c, s) && v < c.workers && w < c.workers && v != w
    requires HasTarget(s.workers[v]) && HasTarget(s.workers[w])
    ensures s.workers[v].target != s.workers[w].target
  {
    hide Total;
    var t := s.workers[w].target;
    assert TokenCount(s, t) == Unit(s.pending[t]);
    if s.workers[v].target == t {
      ColumnAt(Token(t), s.workers, v, w);
    }
  }

  /** What the worker itself has in hand is its target's latest run. */
  lemma OwnInHand(c: Settings, s: State, w: nat, we: WorkerEvent, s': State)
    requires Books(c, s) && w < c.workers && NextWorker(c, s, w, we) == Some(s')
    ensures w < |s'.workers|
    ensures OwedPing(s'.workers[w]).Some? ==>
              var t := s'.workers[w].target;
              t < |s'.ledger| && s'.ledger[t].runs != []
              && s'.ledger[t].runs[|s'.ledger[t].runs| - 1] == OwedPing(s'.workers[w]).value
  {
    hide Classify, CanReturn, LeavesOpen, Min, Total, Keeps, TokensBalance, TargetBooks;
    BalanceShape(c, s);
  }

  /** No other worker's target gets another run. */
  lemma OtherRunsStay(c: Settings, s: State, w: nat, we: WorkerEvent, s': State, t: nat)
    requires Shape(c, s) && w < c.workers && NextWorker(c, s, w, we) == Some(s') && t < c.targets
    requires HasTarget(s.workers[w]) ==> s.workers[w].target != t
    ensures t < |s'.ledger| && s'.ledger[t] == s.ledger[t]
  {
    hide Classify, Filed, CanReturn, LeavesOpen, Min, Keeps;
  }

  lemma WorkerInHand(c: Settings, s: State, w: nat, we: WorkerEvent, s': State)
    requires Books(c, s) && w < c.workers && NextWorker(c, s, w, we) == Some(s')
    ensures InHand(s')
  {
    hide Classify, CanReturn, LeavesOpen, Min, Total, Keeps, TokensBalance, TargetBooks, NextWorker;
    BalanceShape(c, s);
    WorkerFrame(c, s, w, we, s');
    OwnInHand(c, s, w, we, s');
    forall v | 0 <= v < |s'.workers| && OwedPing(s'.workers[v]).Some?
      ensures var t := s'.workers[v].target;
              t < |s'.ledger| && s'.ledger[t].runs != []
              && s'.ledger[t].runs[|s'.ledger[t].runs| - 1] == OwedPing(s'.workers[v]).value
    {
      if v != w {
        assert s'.workers[v] == s.workers[v];
        if HasTarget(s.workers[w]) {
          Alone(c, s, v, w);
        }
        OtherRunsStay(c, s, w, we, s', s.workers[v].target);
      }
    }
  }

  lemma BalanceShape(c: Settings, s: State)
    requires TokensBalance(c, s)
    ensures Shape(c, s)
  {}

  lemma WorkerFireBook(c: Settings, s: State, w: nat, we: WorkerEvent, s': State, t: nat)
    requires Shape(c, s) && w < c.workers && NextWorker(c, s, w, we) == Some(s') && t < c.targets
    requires FireBook(s.ledger[t], s.timers[t])
    ensures t < |s'.ledger| && t < |s'.timers| && FireBook(s'.ledger[t], s'.timers[t])
  {
    hide Classify, CanReturn, LeavesOpen, Min, Keeps;
    WorkerFrame(c, s, w, we, s');
  }

  lemma BooksOfWorkerEvent(c: Settings, s: State, w: nat, we: WorkerEvent, s': State, t: nat)
    requires Books(c, s) && w < c.workers && NextWorker(c, s, w, we) == Some(s') && t < c.targets
    ensures TargetBooks(s', t)
  {
    hide NextWorker, RunBook, FireBook, SentBook, RecordBook, Total, TokensBalance;
    BalanceShape(c, s);
    assert TargetBooks(s, t);
    WorkerFireBook(c, s, w, we, s', t);
    WorkerRunBook(c, s, w, we, s', t);
    WorkerSentBook(c, s, w, we, s', t);
    WorkerRecordBook(c, s, w, we, s', t);
  }

  lemma TimerInHand(c: Settings, s: State, i: nat, te: TimerEvent, s': State)
    requires Books(c, s) && i < c.targets && NextTimer(c, s, i, te) == Some(s')
    ensures InHand(s')
  {
    hide Classify, TargetBooks, Capacity;
    TimerFrame(c, s, i, te, s');
    assert s'.ledger[i].runs == s.ledger[i].runs;
    forall v | 0 <= v < |s'.workers| && OwedPing(s'.workers[v]).Some?
      ensures var t := s'.workers[v].target;
              t < |s'.ledger| && s'.ledger[t].runs != []
              && s'.ledger[t].runs[|s'.ledger[t].runs| - 1] == OwedPing(s'.workers[v]).value
    {
      assert s'.workers[v] == s.workers[v];
    }
  }

  lemma BooksKept(c: Settings, s: State, e: Event, s': State)
    requires Books(c, s) && Steps(c, s, e, s')
    ensures Books(c, s')
  {
    hide NextWorker, NextTimer, TokensBalance, NeverFull, RunBook, FireBook, SentBook, RecordBook, Total;
    TokensKept(c, s, e, s');
    forall t: nat | t < c.targets ensures TargetBooks(s', t) {
      match e
      case Cancel => assert TargetBooks(s, t);
      case OfTimer(i, te) => BooksOfTimerEvent(c, s, i, te, s', t);
      case OfWorker(w, we) => BooksOfWorkerEvent(c, s, w, we, s', t);
    }
    match e
    case Cancel =>
    case OfTimer(i, te) => TimerInHand(c, s, i, te, s');
    case OfWorker(w, we) => WorkerInHand(c, s, w, we, s');
  }

  lemma BooksAtStart(c: Settings)
    ensures Books(c, Start(c))
  {
    hide TokensBalance, TargetBooks, Classify;
    TokensAtStart(c);
    forall t: nat | t < c.targets ensures TargetBooks(Start(c), t) {
      TargetAtStart(c, t);
    }
  }

  lemma TargetAtStart(c: Settings, t: nat)
    requires t < c.targets
    ensures TargetBooks(Start(c), t)
  {
    hide Total, Classify;
    var s := Start(c);
    AllDialing(Live(t), s.workers);
    AllDialing(OwesSent(t), s.workers);
    AllDialing(OwesRecord(t), s.workers);
  }

  /** The books balance in every state of every run. */
  lemma {:induction false} BooksAlways(c: Settings, trace: seq<State>, events: seq<Event>, k: nat)
    requires Run(c, trace, events) && trace[0] == Start(c) && k < |trace|
    ensures Books(c, trace[k])
  {
    hide Books, Steps, Start;
    if k == 0 {
      BooksAtStart(c);
    } else {
      BooksAlways(c, trace, events, k - 1);
      BooksKept(c, trace[k - 1], events[k - 1], trace[k]);
    }
  }

  // ---- What the books say ------------------------------------------------------------------

  /** A target nobody holds: every fire was skipped or enqueued, every enqueued run
      had exactly one outcome, and sent is the sum over the recorded runs only. */
  lemma SettledBooks(c: Settings, s: State, t: nat)
    requires Books(c, s) && t < c.targets && !s.pending[t] && s.timers[t] in {Waiting, Skipping, Stopped}
    ensures var l := s.ledger[t];
            l.fires == l.skips + l.enqueued
            && l.enqueued == l.timeouts + l.failures + l.parseErrors + |l.recorded| + l.drops
            && l.recorded == l.runs
            && l.sent == SumSent(l.recorded) % TWO_TO_THE_64
  {
    hide Classify, SumSent;
    assert TargetBooks(s, t);
    assert TokenCount(s, t) == 0;
    SumZero(Column(Token(t), s.workers));
    forall w | 0 <= w < c.workers
      ensures Weight(Live(t), s.workers[w]) == 0 && Weight(OwesSent(t), s.workers[w]) == 0
      ensures Weight(OwesRecord(t), s.workers[w]) == 0
    {
      assert Column(Token(t), s.workers)[w] == 0;
    }
    SumZero(Column(Live(t), s.workers));
    SumZero(Column(OwesSent(t), s.workers));
    SumZero(Column(OwesRecord(t), s.workers));
  }

  /** At most one run of a target is queued or running at a time. */
  lemma OneLiveRun(c: Settings, s: State, t: nat)
    requires Books(c, s) && t < c.targets
    ensures multiset(s.queue)[t] + Total(Live(t), s.workers) <= Unit(s.pending[t])
  {
    hide Classify;
    assert TokenCount(s, t) == Unit(s.pending[t]);
    SumLeq(Column(Live(t), s.workers), Column(Token(t), s.workers));
  }

  // ---- The router's metrics ----------------------------------------------------------------

  /** Columns of the ledgers that the router's counters add up. */
  datatype Entry = Skips | Timeouts | Failures | ParseErrors

  function EntryOf(k: Entry, l: Ledger): nat {
    match k
    case Skips => l.skips
    case Timeouts => l.timeouts
    case Failures => l.failures
    case ParseErrors => l.parseErrors
  }

  function LedgerColumn(k: Entry, ls: seq<Ledger>): seq<nat> {
    seq(|ls|, i requires 0 <= i < |ls| => EntryOf(k, ls[i]))
  }

  /** A ledger column, summed over all targets. */
  function Overall(k: Entry, ls: seq<Ledger>): nat { Sum(LedgerColumn(k, ls)) }

  function SkippingColumn(ts: seq<Timer>): seq<nat> {
    seq(|ts|, i requires 0 <= i < |ts| => Unit(ts[i].Skipping?))
  }

  /** Skips decided and not yet counted. */
  function OwedSkips(ts: seq<Timer>): nat { Sum(SkippingColumn(ts)) }

  lemma Entered(k: Entry, ls: seq<Ledger>, t: nat, l: Ledger)
    requires t < |ls|
    ensures Overall(k, ls[t := l]) + EntryOf(k, ls[t]) == Overall(k, ls) + EntryOf(k, l)
  {
    hide EntryOf;
    assert LedgerColumn(k, ls[t := l]) == LedgerColumn(k, ls)[t := EntryOf(k, l)];
    SumUpdate(LedgerColumn(k, ls), t, EntryOf(k, l));
  }

  lemma TimerMoved(ts: seq<Timer>, i: nat, x: Timer)
    requires i < |ts|
    ensures OwedSkips(ts[i := x]) + Unit(ts[i].Skipping?) == OwedSkips(ts) + Unit(x.Skipping?)
  {
    assert SkippingColumn(ts[i := x]) == SkippingColumn(ts)[i := Unit(x.Skipping?)];
    SumUpdate(SkippingColumn(ts), i, Unit(x.Skipping?));
  }

  /** The router's counters agree with the histories of its targets. An error of a
      run counts under timeout, connect or parse, a failed dial under connect; a
      session counts as up from its dial until it has been closed. */
  ghost predicate MetricsBalance(s: State) {
    && s.skipped + OwedSkips(s.timers) == Overall(Skips, s.ledger)
    && s.timeoutErrors + Total(OwesTimeout, s.workers) == Overall(Timeouts, s.ledger)
    && s.parseErrors + Total(OwesParse, s.workers) == Overall(ParseErrors, s.ledger)
    && s.connectErrors + Total(OwesConnect, s.workers) == s.dialFailures + Overall(Failures, s.ledger)
    && s.sessionsUp == Total(Up, s.workers)
  }

  lemma MetricsOfTimerEvent(c: Settings, s: State, i: nat, te: TimerEvent, s': State)
    requires Shape(c, s) && MetricsBalance(s) && NeverFull(s) && i < c.targets && NextTimer(c, s, i, te) == Some(s')
    ensures MetricsBalance(s')
  {
    hide Total, Overall, OwedSkips, Capacity;
    TimerFrame(c, s, i, te, s');
    TimerMoved(s.timers, i, s'.timers[i]);
    Entered(Skips, s.ledger, i, s'.ledger[i]);
    Entered(Timeouts, s.ledger, i, s'.ledger[i]);
    Entered(Failures, s.ledger, i, s'.ledger[i]);
    Entered(ParseErrors, s.ledger, i, s'.ledger[i]);
  }

  /** A worker event changes at most the ledger of the target the worker holds. */
  lemma WorkerLedger(c: Settings, s: State, w: nat, we: WorkerEvent, s': State)
    requires Shape(c, s) && w < c.workers && NextWorker(c, s, w, we) == Some(s')
    ensures s'.ledger != s.ledger ==> HasTarget(s.workers[w])
    ensures s'.ledger != s.ledger ==>
              s'.ledger == s.ledger[s.workers[w].target := s'.ledger[s.workers[w].target]]
  {
    hide Classify, CanReturn, LeavesOpen, Min, Keeps, Filed;
  }

  lemma LedgerMoved(c: Settings, s: State, w: nat, we: WorkerEvent, s': State, k: Entry)
    requires Shape(c, s) && w < c.workers && NextWorker(c, s, w, we) == Some(s')
    ensures var at := s.workers[w];
            if HasTarget(at) && at.target < |s'.ledger|
            then Overall(k, s'.ledger) + EntryOf(k, s.ledger[at.target]) == Overall(k, s.ledger)
                + EntryOf(k, s'.ledger[at.target])
            else Overall(k, s'.ledger) == Overall(k, s.ledger)
  {
    hide NextWorker, Overall, EntryOf;
    WorkerFrame(c, s, w, we, s');
    WorkerLedger(c, s, w, we, s');
    var at := s.workers[w];
    if HasTarget(at) {
      assert s'.ledger == s.ledger[at.target := s'.ledger[at.target]];
      Entered(k, s.ledger, at.target, s'.ledger[at.target]);
    }
  }

  lemma ErrorsOfWorkerEvent(c: Settings, s: State, w: nat, we: WorkerEvent, s': State)
    requires Shape(c, s) && MetricsBalance(s) && w < c.workers && NextWorker(c, s, w, we) == Some(s')
    ensures s'.timeoutErrors + Total(OwesTimeout, s'.workers) == Overall(Timeouts, s'.ledger)
    ensures s'.parseErrors + Total(OwesParse, s'.workers) == Overall(ParseErrors, s'.ledger)
  {
    hide Total, Overall, OwedSkips, Classify, CanReturn, LeavesOpen, Min, Keeps;
    WorkerFrame(c, s, w, we, s');
    Moved(OwesTimeout, s.workers, w, s'.workers[w]);
    Moved(OwesParse, s.workers, w, s'.workers[w]);
    LedgerMoved(c, s, w, we, s', Timeouts);
    LedgerMoved(c, s, w, we, s', ParseErrors);
  }

  lemma ConnectsOfWorkerEvent(c: Settings, s: State, w: nat, we: WorkerEvent, s': State)
    requires Shape(c, s) && MetricsBalance(s) && w < c.workers && NextWorker(c, s, w, we) == Some(s')
    ensures s'.connectErrors + Total(OwesConnect, s'.workers) == s'.dialFailures + Overall(Failures, s'.ledger)
    ensures s'.skipped + OwedSkips(s'.timers) == Overall(Skips, s'.ledger)
    ensures s'.sessionsUp == Total(Up, s'.workers)
  {
    hide Total, Overall, OwedSkips, Classify, CanReturn, LeavesOpen, Min, Keeps;
    WorkerFrame(c, s, w, we, s');
    Moved(OwesConnect, s.workers, w, s'.workers[w]);
    Moved(Up, s.workers, w, s'.workers[w]);
    LedgerMoved(c, s, w, we, s', Failures);
    LedgerMoved(c, s, w, we, s', Skips);
  }

  lemma MetricsKept(c: Settings, s: State, e: Event, s': State)
    requires Shape(c, s) && MetricsBalance(s) && NeverFull(s) && Steps(c, s, e, s')
    ensures MetricsBalance(s')
  {
    hide NextWorker, NextTimer, Total, Overall, OwedSkips;
    match e
    case Cancel =>
    case OfTimer(i, te) => MetricsOfTimerEvent(c, s, i, te, s');
    case OfWorker(w, we) =>
      ErrorsOfWorkerEvent(c, s, w, we, s');
      ConnectsOfWorkerEvent(c, s, w, we, s');
  }

  lemma MetricsAtStart(c: Settings)
    ensures MetricsBalance(Start(c))
  {
    hide Classify;
    var s := Start(c);
    AllDialing(OwesTimeout, s.workers);
    AllDialing(OwesParse, s.workers);
    AllDialing(OwesConnect, s.workers);
    AllDialing(Up, s.workers);
    SumZero(SkippingColumn(s.timers));
    SumZero(LedgerColumn(Skips, s.ledger));
    SumZero(LedgerColumn(Timeouts, s.ledger));
    SumZero(LedgerColumn(Failures, s.ledger));
    SumZero(LedgerColumn(ParseErrors, s.ledger));
  }

  lemma {:induction false} MetricsAlways(c: Settings, trace: seq<State>, events: seq<Event>, k: nat)
    requires Run(c, trace, events) && trace[0] == Start(c) && k < |trace|
    ensures MetricsBalance(trace[k])
  {
    hide MetricsBalance, Start, NextWorker, NextTimer, NeverFull, TokensBalance;
    if k == 0 {
      MetricsAtStart(c);
    } else {
      MetricsAlways(c, trace, events, k - 1);
      TokensAlways(c, trace, events, k - 1);
      MetricsKept(c, trace[k - 1], events[k - 1], trace[k]);
    }
  }

  /** sessions_up never leaves 0..sessions. */
  lemma SessionsUpBounded(c: Settings, s: State)
    requires Shape(c, s) && MetricsBalance(s)
    ensures 0 <= s.sessionsUp <= c.workers
  {
    hide Classify;
    var col := Column(Up, s.workers);
    AtMostOneEach(col);
  }

  lemma {:induction false} AtMostOneEach(xs: seq<nat>)
    requires forall i :: 0 <= i < |xs| ==> xs[i] <= 1
    ensures Sum(xs) <= |xs|
  {
    if xs != [] {
      AtMostOneEach(xs[1..]);
    }
  }
}
