/** What is filed and counted for each result that Run returns, told from the results
    themselves: which error wraps which, and what an output parses to. */
module Outcomes {
  import opened Wrappers
  import opened PingOutput
  import opened Huawei
  import opened Session
  import opened Scheduler

  // ---- Results by kind --------------------------------------------------------------------

  /** How many of them are timeouts, whether or not the session was lost with them. */
  function TimedOut(rs: seq<RunResult>): nat {
    if rs == [] then 0
    else
      var r := rs[|rs| - 1];
      TimedOut(rs[..|rs| - 1]) + if r.Failed? && r.timeout then 1 else 0
  }

  /** How many of them are other errors of the session. */
  function Lost(rs: seq<RunResult>): nat {
    if rs == [] then 0
    else
      var r := rs[|rs| - 1];
      Lost(rs[..|rs| - 1]) + if r.Failed? && !r.timeout then 1 else 0
  }

  /** How many of them are outputs that do not parse. */
  function Unparsed(rs: seq<RunResult>): nat {
    if rs == [] then 0
    else
      var r := rs[|rs| - 1];
      Unparsed(rs[..|rs| - 1]) + if r.Output? && Parse(r.out).Err? then 1 else 0
  }

  /** What the others parse to, in order. */
  function Parsed(rs: seq<RunResult>): seq<PingResult> {
    if rs == [] then []
    else
      var r := rs[|rs| - 1];
      Parsed(rs[..|rs| - 1]) + if r.Output? && Parse(r.out).Ok? then [Parse(r.out).value] else []
  }

  lemma OneMoreResult(rs: seq<RunResult>, r: RunResult)
    ensures TimedOut(rs + [r]) == TimedOut(rs) + if r.Failed? && r.timeout then 1 else 0
    ensures Lost(rs + [r]) == Lost(rs) + if r.Failed? && !r.timeout then 1 else 0
    ensures Unparsed(rs + [r]) == Unparsed(rs) + if r.Output? && Parse(r.out).Err? then 1 else 0
    ensures Parsed(rs + [r]) == Parsed(rs) + if r.Output? && Parse(r.out).Ok? then [Parse(r.out).value] else []
  {
    hide Parse;
    assert (rs + [r])[..|rs|] == rs;
  }

  // ---- Only a returning Run is filed ------------------------------------------------------

  /** A Run returns in this step. */
  predicate Returns(s: State, e: Event) {
    e.OfWorker? && e.we.Return? && e.w < |s.workers| && s.workers[e.w].Running?
  }

  predicate SameRuns(l: Ledger, l': Ledger) {
    l'.runs == l.runs && l'.timeouts == l.timeouts && l'.failures == l.failures && l'.parseErrors == l.parseErrors
  }

  lemma TimerFilesNothing(c: Settings, s: State, i: nat, te: TimerEvent, s': State, t: nat)
    requires Shape(c, s) && i < c.targets && NextTimer(c, s, i, te) == Some(s') && t < c.targets
    ensures t < |s'.ledger| && SameRuns(s.ledger[t], s'.ledger[t])
  {
    hide Capacity;
  }

  lemma WorkerFiles(c: Settings, s: State, w: nat, we: WorkerEvent, s': State, t: nat)
    requires Shape(c, s) && w < c.workers && NextWorker(c, s, w, we) == Some(s') && t < c.targets
    ensures t < |s'.ledger|
    ensures if we.Return? && s.workers[w].Running? && s.workers[w].target == t
            then s'.ledger[t] == Filed(s.ledger[t], Classify(we.result))
            else SameRuns(s.ledger[t], s'.ledger[t])
  {
    hide Classify, Filed, CanReturn, LeavesOpen, Min, Keeps;
  }

  lemma StepFiles(c: Settings, s: State, e: Event, s': State, t: nat)
    requires Steps(c, s, e, s') && t < c.targets
    ensures t < |s.ledger| && t < |s'.ledger|
    ensures if Returns(s, e) && s.workers[e.w].target == t
            then s'.ledger[t] == Filed(s.ledger[t], Classify(e.we.result))
            else SameRuns(s.ledger[t], s'.ledger[t])
  {
    hide NextTimer, NextWorker, Classify, Filed;
    match e
    case Cancel =>
    case OfTimer(i, te) => TimerFilesNothing(c, s, i, te, s', t);
    case OfWorker(w, we) => WorkerFiles(c, s, w, we, s', t);
  }

  // ---- The history of a target --------------------------------------------------------------

  /** The result that a Run for the target returns in this step, if one does. */
  function ReturnedIn(s: State, e: Event, t: nat): seq<RunResult> {
    if Returns(s, e) && s.workers[e.w].target == t then [e.we.result] else []
  }

  /** What Run returned for the target in the first k steps. */
  function Returned(trace: seq<State>, events: seq<Event>, t: nat, k: nat): seq<RunResult>
    requires k <= |events| < |trace|
  {
    if k == 0 then []
    else
      Returned(trace, events, t, k - 1) + ReturnedIn(trace[k - 1], events[k - 1], t)
  }

  /** The target's history, told from these results. */
  ghost predicate TellsResults(l: Ledger, rs: seq<RunResult>) {
    l.timeouts == TimedOut(rs) && l.failures == Lost(rs) && l.parseErrors == Unparsed(rs) && l.runs == Parsed(rs)
  }

  lemma OneMoreFiled(l: Ledger, rs: seq<RunResult>, r: RunResult)
    requires TellsResults(l, rs)
    ensures TellsResults(Filed(l, Classify(r)), rs + [r])
  {
    hide Parse;
    OneMoreResult(rs, r);
    assert Parsed(rs) + [] == Parsed(rs);
  }

  lemma StepTells(c: Settings, s: State, e: Event, s': State, t: nat, rs: seq<RunResult>)
    requires Steps(c, s, e, s') && t < c.targets && t < |s.ledger| && TellsResults(s.ledger[t], rs)
    ensures t < |s'.ledger| && TellsResults(s'.ledger[t], rs + ReturnedIn(s, e, t))
  {
    hide Steps, Filed, Classify, TellsResults;
    StepFiles(c, s, e, s', t);
    if Returns(s, e) && s.workers[e.w].target == t {
      OneMoreFiled(s.ledger[t], rs, e.we.result);
    } else {
      SameTellsResults(s.ledger[t], s'.ledger[t], rs);
      assert rs + ReturnedIn(s, e, t) == rs;
    }
  }

  lemma SameTellsResults(l: Ledger, l': Ledger, rs: seq<RunResult>)
    requires TellsResults(l, rs) && SameRuns(l, l')
    ensures TellsResults(l', rs)
  {}

  lemma {:induction false} ResultsTell(c: Settings, trace: seq<State>, events: seq<Event>, t: nat, k: nat)
    requires Run(c, trace, events) && trace[0] == Start(c) && t < c.targets && k <= |events|
    ensures t < |trace[k].ledger| && TellsResults(trace[k].ledger[t], Returned(trace, events, t, k))
  {
    hide Steps, TellsResults, ReturnedIn;
    if k == 0 {
      NothingTells(c, t);
    } else {
      ResultsTell(c, trace, events, t, k - 1);
      StepTells(c, trace[k - 1], events[k - 1], trace[k], t, Returned(trace, events, t, k - 1));
    }
  }

  lemma NothingTells(c: Settings, t: nat)
    requires t < c.targets
    ensures TellsResults(Start(c).ledger[t], [])
  {}

  /** In every state a target's timeouts are the Runs that returned a timeout, whether or
      not the session survived it; its failures are those that returned any other error;
      its parse errors and its runs are the outputs, by what they parse to. */
  lemma HistoryOfResults(c: Settings, trace: seq<State>, events: seq<Event>, t: nat, k: nat)
    requires Run(c, trace, events) && trace[0] == Start(c) && t < c.targets && k <= |events|
    ensures t < |trace[k].ledger|
    ensures var l, rs := trace[k].ledger[t], Returned(trace, events, t, k);
            && l.timeouts == TimedOut(rs) && l.failures == Lost(rs)
            && l.parseErrors == Unparsed(rs) && l.runs == Parsed(rs)
  {
    hide Steps, Returned, TimedOut, Lost, Unparsed, Parsed;
    ResultsTell(c, trace, events, t, k);
  }

  // ---- The router's counters -------------------------------------------------------------------

  /** The results that runJob has accounted for in the first k steps. */
  function Accounted(trace: seq<State>, events: seq<Event>, k: nat): seq<RunResult>
    requires k <= |events| < |trace|
  {
    if k == 0 then []
    else
      Accounted(trace, events, k - 1) + AccountedIn(trace[k - 1], events[k - 1])
  }

  function AccountedIn(s: State, e: Event): seq<RunResult> {
    if e.OfWorker? && e.we.Account? && e.w < |s.workers| && s.workers[e.w].Ran? then [s.workers[e.w].result] else []
  }

  /** How many failed dials have been counted in the first k steps, and how many skips. */
  function DialsCounted(events: seq<Event>, k: nat): nat
    requires k <= |events|
  {
    if k == 0 then 0 else DialsCounted(events, k - 1) + DialIn(events[k - 1])
  }

  function DialIn(e: Event): nat { if e.OfWorker? && e.we.CountDialFailure? then 1 else 0 }

  function SkipsCounted(events: seq<Event>, k: nat): nat
    requires k <= |events|
  {
    if k == 0 then 0 else SkipsCounted(events, k - 1) + SkipIn(events[k - 1])
  }

  function SkipIn(e: Event): nat { if e.OfTimer? && e.te.CountSkip? then 1 else 0 }

  /** What runJob does with the result in hand: which counter moves, by how much the
      target's sent counter does, and whether the session is kept. */
  lemma AccountMoves(c: Settings, s: State, w: nat, s': State)
    requires Steps(c, s, OfWorker(w, Account), s') && w < |s.workers| && s.workers[w].Ran?
    ensures w < |s'.workers|
    ensures var r, sid, t := s.workers[w].result, s.workers[w].sid, s.workers[w].target;
            match r
            case Failed(timeout, closed) =>
              && s'.workers[w] == Releasing(sid, t, timeout && !closed) && s'.ledger == s.ledger
              && s'.timeoutErrors == s.timeoutErrors + (if timeout then 1 else 0)
              && s'.connectErrors == s.connectErrors + (if timeout then 0 else 1) && s'.parseErrors == s.parseErrors
            case Output(out) =>
              && s'.timeoutErrors == s.timeoutErrors && s'.connectErrors == s.connectErrors
              && match Parse(out) {
                   case Err(_) =>
                     && s'.workers[w] == Releasing(sid, t, true) && s'.ledger == s.ledger
                     && s'.parseErrors == s.parseErrors + 1
                   case Ok(ping) =>
                     && s'.workers[w] == Recording(sid, t, ping) && s'.parseErrors == s.parseErrors
                     && t < |s.ledger|
                     && s'.ledger == s.ledger[t := s.ledger[t].(sent := (s.ledger[t].sent + ping.sent)
                                                                        % 0x1_0000_0000_0000_0000)]
                 }
  {
    hide Parse;
  }

  /** The four counters of errors and skips. */
  predicate SameCounters(s: State, s': State) {
    && s'.timeoutErrors == s.timeoutErrors && s'.connectErrors == s.connectErrors
    && s'.parseErrors == s.parseErrors && s'.skipped == s.skipped
  }

  lemma OthersCount(c: Settings, s: State, e: Event, s': State)
    requires Steps(c, s, e, s') && !(e.OfWorker? && e.we.Account?)
    ensures SameCounters(s.(connectErrors := s.connectErrors + DialIn(e), skipped := s.skipped + SkipIn(e)), s')
  {
    hide Classify, Filed, CanReturn, LeavesOpen, Min, Keeps, Capacity;
  }

  lemma AccountStands(c: Settings, s: State, e: Event, s': State)
    requires Steps(c, s, e, s') && e.OfWorker? && e.we.Account?
    ensures e.w < |s.workers| && s.workers[e.w].Ran? && s'.skipped == s.skipped
  {
    hide Classify, Filed, CanReturn, LeavesOpen, Min, Keeps, Capacity;
  }

  ghost predicate Counted(s: State, rs: seq<RunResult>, dials: nat, skips: nat) {
    && s.timeoutErrors == TimedOut(rs) && s.parseErrors == Unparsed(rs)
    && s.connectErrors == Lost(rs) + dials && s.skipped == skips
  }

  lemma StepCounts(c: Settings, s: State, e: Event, s': State, rs: seq<RunResult>, dials: nat, skips: nat)
    requires Steps(c, s, e, s') && Counted(s, rs, dials, skips)
    ensures Counted(s', rs + AccountedIn(s, e), dials + DialIn(e), skips + SkipIn(e))
  {
    hide Steps, Parse, TimedOut, Lost, Unparsed;
    if e.OfWorker? && e.we.Account? {
      AccountStands(c, s, e, s');
      AccountMoves(c, s, e.w, s');
      OneMoreResult(rs, s.workers[e.w].result);
    } else {
      OthersCount(c, s, e, s');
      assert rs + AccountedIn(s, e) == rs;
    }
  }

  lemma {:induction false} AllCounted(c: Settings, trace: seq<State>, events: seq<Event>, k: nat)
    requires Run(c, trace, events) && trace[0] == Start(c) && k <= |events|
    ensures Counted(trace[k], Accounted(trace, events, k), DialsCounted(events, k), SkipsCounted(events, k))
  {
    hide Steps, AccountedIn, Counted, DialIn, SkipIn, Start, StartWith;
    if k == 0 {
      NothingCounted(c);
    } else {
      AllCounted(c, trace, events, k - 1);
      StepCounts(c, trace[k - 1], events[k - 1], trace[k], Accounted(trace, events, k - 1),
                 DialsCounted(events, k - 1), SkipsCounted(events, k - 1));
    }
  }

  lemma NothingCounted(c: Settings)
    ensures Counted(Start(c), [], 0, 0)
  {}

  /** In every state each counter is the number of results of its kind that have been
      accounted for; failed dials count under connect too. */
  lemma CountersOfResults(c: Settings, trace: seq<State>, events: seq<Event>, k: nat)
    requires Run(c, trace, events) && trace[0] == Start(c) && k <= |events|
    ensures var s, rs := trace[k], Accounted(trace, events, k);
            && s.timeoutErrors == TimedOut(rs) && s.parseErrors == Unparsed(rs)
            && s.connectErrors == Lost(rs) + DialsCounted(events, k) && s.skipped == SkipsCounted(events, k)
  {
    hide Steps, Accounted, TimedOut, Lost, Unparsed, DialsCounted, SkipsCounted;
    AllCounted(c, trace, events, k);
  }
}
