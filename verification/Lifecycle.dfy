/** The life of the process: start-up, reloads that succeed or fail at any point,
    and the results the running schedulers keep recording meanwhile. Vectors and
    schedulers are numbered in the order of their creation. */
module Lifecycle {
  import opened Wrappers
  import opened Targets
  import opened Labels

  datatype Phase = Fresh | Running | Stopped

  /** A scheduler, the vector its recorder captured, and how often it was started. */
  datatype Sched = Sched(hist: nat, targets: seq<TargetInfo>, phase: Phase, starts: nat)

  /** A histogram vector: observations per label tuple. */
  datatype Vec = Vec(names: seq<string>, counts: map<seq<string>, nat>)

  /** One result handed to the recorder: `n` replies for a target of a scheduler
      whose recorder writes to the vector `hist`. */
  datatype Entry = Entry(sched: nat, hist: nat, target: TargetInfo, n: nat)

  /** Where main stands. */
  datatype Pc =
    | Loaded            // a configuration is in use; the metrics come next
    | Ready             // fresh vectors are registered; prepare comes next
    | Decided           // prepare succeeded; start comes next
    | Stopping(k: nat)  // start is stopping the old schedulers, k are stopped
    | Adopted           // start has returned; the new collector comes next
    | Starting(k: nat)  // the collector is registered; startRemote has started k
    | Idle              // waiting for a reload
    | Exited

  datatype World = World(
    pc: Pc,
    serving: bool,        // start-up is over
    vecs: seq<Vec>,       // the last one is current and registered
    scheds: seq<Sched>,
    prepared: seq<nat>, local: nat,   // preparedRemote, and how many local probes
    started: seq<nat>,    // startedRemote
    collector: seq<nat>,  // the schedulers whose targets the collector exports
    log: seq<Entry>)      // every result recorded, ever

  const START := World(Loaded, false, [], [], [], 0, [], [], [])

  datatype Event =
    | ReloadFailed | ReloadOk
    | InitMetrics(names: seq<string>)
    | PrepareFailed | PrepareOk(locals: nat, routers: seq<seq<TargetInfo>>)
    | NoTargets | BeginStart | StopOne | Adopt | MakeCollector | StartOne | Finish
    | Record(i: nat, target: TargetInfo, n: nat)

  function CountIn(v: Vec, t: seq<string>): nat { if t in v.counts then v.counts[t] else 0 }

  /** Recording adds the replies; no replies create no series. */
  function Observed(v: Vec, t: seq<string>, n: nat): Vec {
    if n == 0 then v else v.(counts := v.counts[t := CountIn(v, t) + n])
  }

  function TargetsOf(scheds: seq<Sched>, ids: seq<nat>): seq<TargetInfo>
    requires forall k :: 0 <= k < |ids| ==> ids[k] < |scheds|
  {
    if ids == [] then [] else scheds[ids[0]].targets + TargetsOf(scheds, ids[1..])
  }

  function TupleSet(names: seq<string>, targets: seq<TargetInfo>): set<seq<string>> {
    set x | x in targets :: RemoteTuple(names, x)
  }

  /** updateProbes: the vector is reset, and every remote series starts at 0. */
  function ResetFor(names: seq<string>, targets: seq<TargetInfo>): Vec {
    Vec(names, map t | t in TupleSet(names, targets) :: 0)
  }

  function NewScheds(hist: nat, routers: seq<seq<TargetInfo>>): seq<Sched> {
    seq(|routers|, r requires 0 <= r < |routers| => Sched(hist, routers[r], Fresh, 0))
  }

  function NewIds(n: nat, count: nat): seq<nat> { seq(count, k requires 0 <= k < count => n + k) }

  function StopSched(s: Sched): Sched { if s.phase.Fresh? then s else s.(phase := Stopped) }

  ghost predicate Shape(w: World) {
    && (w.pc.Loaded? || w.pc.Exited? || w.vecs != [])
    && (forall i :: 0 <= i < |w.scheds| ==> w.scheds[i].hist < |w.vecs|)
    && (forall k :: 0 <= k < |w.prepared| ==> w.prepared[k] < |w.scheds|)
    && (forall k :: 0 <= k < |w.started| ==> w.started[k] < |w.scheds|)
  }

  function Fail(w: World): World { w.(pc := if w.serving then Idle else Exited) }

  /** What main, or a recording scheduler, does next. */
  function Next(w: World, e: Event): Option<World>
    requires Shape(w)
  {
    match e
    case ReloadFailed => if !w.pc.Idle? then None else Some(w)
    case ReloadOk => if !w.pc.Idle? then None else Some(w.(pc := Loaded))
    case InitMetrics(names) =>
      if !w.pc.Loaded? then None else Some(w.(pc := Ready, vecs := w.vecs + [Vec(names, map[])]))
    case PrepareFailed => if !w.pc.Ready? then None else Some(Fail(w))
    case PrepareOk(locals, routers) =>
      if !w.pc.Ready? || [] in routers then None
      else Some(w.(pc := Decided, scheds := w.scheds + NewScheds(|w.vecs| - 1, routers),
                   prepared := NewIds(|w.scheds|, |routers|), local := locals))
    case NoTargets => if !w.pc.Decided? || w.local != 0 || w.prepared != [] then None else Some(Fail(w))
    case BeginStart =>
      if !w.pc.Decided? || (w.local == 0 && w.prepared == []) then None else Some(w.(pc := Stopping(0)))
    case StopOne =>
      if !w.pc.Stopping? || w.pc.k >= |w.started| then None
      else
        var i := w.started[w.pc.k];
        Some(w.(pc := Stopping(w.pc.k + 1), scheds := w.scheds[i := StopSched(w.scheds[i])]))
    case Adopt =>
      if !w.pc.Stopping? || w.pc.k < |w.started| then None
      else Some(w.(pc := Adopted, started := w.prepared, prepared := [], local := 0))
    case MakeCollector =>
      if !w.pc.Adopted? then None
      else
        var h := |w.vecs| - 1;
        Some(w.(pc := Starting(0), collector := w.started,
                vecs := w.vecs[h := ResetFor(w.vecs[h].names, TargetsOf(w.scheds, w.started))]))
    case StartOne =>
      if !w.pc.Starting? || w.pc.k >= |w.started| then None
      else
        var i := w.started[w.pc.k];
        Some(w.(pc := Starting(w.pc.k + 1),
                scheds := w.scheds[i := w.scheds[i].(phase := Running, starts := w.scheds[i].starts + 1)]))
    case Finish =>
      if !w.pc.Starting? || w.pc.k < |w.started| then None else Some(w.(pc := Idle, serving := true))
    case Record(i, x, n) =>
      if i >= |w.scheds| || !w.scheds[i].phase.Running? || x !in w.scheds[i].targets then None
      else
        var h := w.scheds[i].hist;
        Some(w.(vecs := w.vecs[h := Observed(w.vecs[h], RemoteTuple(w.vecs[h].names, x), n)],
                log := w.log + [Entry(i, h, x, n)]))
  }

  ghost predicate Run(trace: seq<World>, events: seq<Event>) {
    && |trace| == |events| + 1 && trace[0] == START
    && forall k :: 0 <= k < |events| ==> Shape(trace[k]) && Next(trace[k], events[k]) == Some(trace[k + 1])
  }

  // ---- The invariants ----------------------------------------------------------------

  ghost predicate NoRepeats(ids: seq<nat>) { forall j, k :: 0 <= j < k < |ids| ==> ids[j] != ids[k] }

  /** What phase the k-th scheduler of startedRemote is in. */
  function StartedPhase(pc: Pc, k: nat): Phase {
    match pc
    case Stopping(n) => if k < n then Stopped else Running
    case Adopted => Fresh
    case Starting(n) => if k < n then Running else Fresh
    case _ => Running
  }

  /** Between InitMetrics and MakeCollector the current vector is new. */
  predicate NewVector(pc: Pc) { pc.Ready? || pc.Decided? || pc.Stopping? || pc.Adopted? }

  /** No scheduler that was ever started writes to the current vector. */
  ghost predicate Unseen(w: World) {
    forall i: nat :: i < |w.scheds| && w.scheds[i].hist == |w.vecs| - 1 ==> w.scheds[i].phase.Fresh?
  }

  ghost predicate Generations(w: World) {
    && Shape(w)
    && NoRepeats(w.started) && NoRepeats(w.prepared)
    // Only schedulers of startedRemote run, and none is started twice.
    && (forall i: nat :: i < |w.scheds| ==> w.scheds[i].starts == (if w.scheds[i].phase.Fresh? then 0 else 1))
    && (forall i: nat :: i < |w.scheds| && w.scheds[i].phase.Running? ==> i in w.started)
    && (forall k: nat :: k < |w.started| ==> w.scheds[w.started[k]].phase == StartedPhase(w.pc, k))
    && (w.pc.Stopping? ==> w.pc.k <= |w.started|) && (w.pc.Starting? ==> w.pc.k <= |w.started|)
    // Prepared schedulers are new, and write to the current vector.
    && (w.prepared != [] ==> w.pc.Decided? || w.pc.Stopping?)
    && (forall i :: i in w.prepared ==> w.scheds[i].phase.Fresh? && w.scheds[i].hist == |w.vecs| - 1)
    // All of startedRemote write to one vector; to the current one right after start.
    && (forall i, j :: i in w.started && j in w.started ==> w.scheds[i].hist == w.scheds[j].hist)
    && (w.pc.Adopted? || w.pc.Starting? ==> forall i :: i in w.started ==> w.scheds[i].hist == |w.vecs| - 1)
    // A vector that is still to be reset is not in use.
    && (NewVector(w.pc) ==> Unseen(w))
    // The collector exports the targets of startedRemote, except while these are exchanged.
    && (w.pc.Stopping? || w.pc.Adopted? || w.collector == w.started)
  }

  lemma NewIdsFresh(w: World, routers: seq<seq<TargetInfo>>)
    requires Generations(w) && w.pc.Ready?
    ensures var scheds := w.scheds + NewScheds(|w.vecs| - 1, routers); var ids := NewIds(|w.scheds|, |routers|);
            && NoRepeats(ids)
            && (forall i :: i in ids ==> |w.scheds| <= i < |scheds|)
            && (forall i :: i in ids ==> scheds[i].phase.Fresh? && scheds[i].hist == |w.vecs| - 1)
  {}

  lemma PrepareKeeps(w: World, e: Event, w': World)
    requires Generations(w) && e.PrepareOk? && Next(w, e) == Some(w')
    ensures Generations(w')
  {
    hide NoRepeats, RemoteTuple;
    NewIdsFresh(w, e.routers);
    var n := |w.scheds|;
    assert forall i: nat :: i < n ==> w'.scheds[i] == w.scheds[i];
    assert forall i: nat :: n <= i < |w'.scheds| ==> w'.scheds[i] == Sched(|w.vecs| - 1, e.routers[i - n], Fresh, 0);
  }

  lemma StopOneKeeps(w: World, w': World)
    requires Generations(w) && Next(w, StopOne) == Some(w')
    ensures Generations(w')
  {
    hide RemoteTuple;
    var i := w.started[w.pc.k];
    assert w.scheds[i].phase.Running?;
    assert forall j: nat :: j < |w.scheds| && j != i ==> w'.scheds[j] == w.scheds[j];
  }

  lemma StartOneKeeps(w: World, w': World)
    requires Generations(w) && Next(w, StartOne) == Some(w')
    ensures Generations(w')
  {
    var i := w.started[w.pc.k];
    assert w.scheds[i].phase.Fresh?;
    assert i in w.started;
    assert forall j: nat :: j < |w.scheds| && j != i ==> w'.scheds[j] == w.scheds[j];
  }

  lemma AdoptKeeps(w: World, w': World)
    requires Generations(w) && Next(w, Adopt) == Some(w')
    ensures Generations(w')
  {
    forall i: nat | i < |w.scheds| ensures !w.scheds[i].phase.Running? {
      if i in w.started {
        var k: nat :| k < |w.started| && w.started[k] == i;
        assert w.scheds[w.started[k]].phase == StartedPhase(w.pc, k);
      }
    }
    forall k: nat | k < |w'.started| ensures w'.scheds[w'.started[k]].phase.Fresh? {
      assert w.prepared[k] in w.prepared;
    }
  }

  lemma InitKeeps(w: World, e: Event, w': World)
    requires Generations(w) && e.InitMetrics? && Next(w, e) == Some(w')
    ensures Generations(w')
  {
    assert forall i: nat :: i < |w.scheds| ==> w.scheds[i].hist < |w.vecs|;
  }

  lemma GenerationsKept(w: World, e: Event, w': World)
    requires Generations(w) && Next(w, e) == Some(w')
    ensures Generations(w')
  {
    match e
    case InitMetrics(_) => InitKeeps(w, e, w');
    case PrepareOk(_, _) => PrepareKeeps(w, e, w');
    case StopOne => StopOneKeeps(w, w');
    case Adopt => AdoptKeeps(w, w');
    case StartOne => StartOneKeeps(w, w');
    case MakeCollector => MakeCollectorKeeps(w, w');
    case Record(_, _, _) => RecordKeeps(w, e, w');
    case _ => PcKeeps(w, e, w');
  }

  lemma MakeCollectorKeeps(w: World, w': World)
    requires Generations(w) && Next(w, MakeCollector) == Some(w')
    ensures Generations(w')
  {
    hide RemoteTuple, ResetFor, TargetsOf, NoRepeats;
  }

  lemma RecordKeeps(w: World, e: Event, w': World)
    requires Generations(w) && e.Record? && Next(w, e) == Some(w')
    ensures Generations(w')
  {
    hide RemoteTuple, Observed, NoRepeats, StartedPhase, NewVector;
  }

  /** The other events move main only. */
  lemma PcKeeps(w: World, e: Event, w': World)
    requires Generations(w) && Next(w, e) == Some(w')
    requires e.ReloadFailed? || e.ReloadOk? || e.PrepareFailed? || e.NoTargets? || e.BeginStart? || e.Finish?
    ensures Generations(w')
  {
    hide NoRepeats;
    assert w'.scheds == w.scheds && w'.vecs == w.vecs && w'.started == w.started && w'.prepared == w.prepared;
  }

  lemma {:induction false} GenerationsAlways(trace: seq<World>, events: seq<Event>, k: nat)
    requires Run(trace, events) && k < |trace|
    ensures Generations(trace[k])
  {
    hide Next;
    if k > 0 {
      GenerationsAlways(trace, events, k - 1);
      GenerationsKept(trace[k - 1], events[k - 1], trace[k]);
    }
  }

  /** At most one generation of schedulers is active: whatever runs belongs to
      startedRemote and writes to one vector; no scheduler is ever started twice;
      and outside a reload exactly startedRemote runs and is exported. */
  lemma OneGeneration(trace: seq<World>, events: seq<Event>, k: nat)
    requires Run(trace, events) && k < |trace|
    ensures var w := trace[k];
            && (forall i: nat :: i < |w.scheds| ==> w.scheds[i].starts <= 1)
            && (forall i: nat :: i < |w.scheds| && w.scheds[i].phase.Running? ==> i in w.started)
            && (forall i: nat, j: nat ::
                  i < |w.scheds| && j < |w.scheds| && w.scheds[i].phase.Running? && w.scheds[j].phase.Running? ==>
                    w.scheds[i].hist == w.scheds[j].hist)
            && (w.pc.Idle? ==> w.collector == w.started
                               && forall i: nat :: i < |w.scheds| ==> (w.scheds[i].phase.Running? <==> i in w.started))
  {
    hide Next, Run;
    GenerationsAlways(trace, events, k);
  }

  // ---- Nothing recorded is ever wiped -------------------------------------------------

  /** The replies recorded into the vector `h` under the tuple `t`. */
  function Logged(log: seq<Entry>, h: nat, names: seq<string>, t: seq<string>): nat {
    if log == [] then 0
    else
      var e := log[|log| - 1];
      Logged(log[..|log| - 1], h, names, t) + if e.hist == h && RemoteTuple(names, e.target) == t then e.n else 0
  }

  lemma {:induction false} LoggedNothing(log: seq<Entry>, h: nat, names: seq<string>, t: seq<string>)
    requires forall k :: 0 <= k < |log| ==> log[k].hist != h
    ensures Logged(log, h, names, t) == 0
  {
    if log != [] {
      LoggedNothing(log[..|log| - 1], h, names, t);
    }
  }

  ghost predicate LogRight(w: World) {
    forall k :: 0 <= k < |w.log| ==>
      var e := w.log[k];
      e.sched < |w.scheds| && e.hist == w.scheds[e.sched].hist && !w.scheds[e.sched].phase.Fresh?
  }

  ghost predicate Counted(w: World, h: nat) {
    h < |w.vecs| && forall t :: CountIn(w.vecs[h], t) == Logged(w.log, h, w.vecs[h].names, t)
  }

  ghost predicate Accounts(w: World) {
    Generations(w) && LogRight(w) && forall h: nat :: h < |w.vecs| ==> Counted(w, h)
  }

  /** No result has been recorded into a vector that is still to be reset. */
  lemma NotYetUsed(w: World)
    requires LogRight(w) && Unseen(w)
    ensures forall k :: 0 <= k < |w.log| ==> w.log[k].hist != |w.vecs| - 1
  {}

  lemma ResetCounted(names: seq<string>, targets: seq<TargetInfo>)
    ensures forall t :: CountIn(ResetFor(names, targets), t) == 0
  {}

  lemma CollectorCounts(w: World, w': World)
    requires Accounts(w) && Next(w, MakeCollector) == Some(w')
    ensures forall h: nat :: h < |w'.vecs| ==> Counted(w', h)
  {
    hide LogRight, CountIn, ResetFor, TargetsOf, StartedPhase, NoRepeats, Unseen;
    NotYetUsed(w);
    var last := |w.vecs| - 1;
    ResetCounted(w.vecs[last].names, TargetsOf(w.scheds, w.started));
    forall h: nat | h < |w'.vecs| ensures Counted(w', h) {
      assert Counted(w, h);
      if h == last {
        forall t ensures CountIn(w'.vecs[h], t) == Logged(w'.log, h, w'.vecs[h].names, t) {
          LoggedNothing(w.log, h, w'.vecs[h].names, t);
        }
      } else {
        SameCount(w, w', h);
      }
    }
  }

  lemma SameCount(w: World, w': World, h: nat)
    requires Counted(w, h) && h < |w'.vecs| && w'.vecs[h] == w.vecs[h] && w'.log == w.log
    ensures Counted(w', h)
  {}

  lemma InitCounts(w: World, e: Event, w': World)
    requires Accounts(w) && e.InitMetrics? && Next(w, e) == Some(w')
    ensures forall h: nat :: h < |w'.vecs| ==> Counted(w', h)
  {
    hide Logged;
    forall h: nat | h < |w'.vecs| ensures Counted(w', h) {
      if h < |w.vecs| {
        assert Counted(w, h);
        SameCount(w, w', h);
      } else {
        forall t ensures CountIn(w'.vecs[h], t) == Logged(w'.log, h, w'.vecs[h].names, t) {
          LoggedNothing(w.log, h, w'.vecs[h].names, t);
        }
      }
    }
  }

  lemma ObservedCount(v: Vec, t: seq<string>, n: nat, u: seq<string>)
    ensures CountIn(Observed(v, t, n), u) == CountIn(v, u) + if u == t then n else 0
    ensures Observed(v, t, n).names == v.names
  {}

  lemma LoggedMore(log: seq<Entry>, e: Entry, h: nat, names: seq<string>, t: seq<string>)
    ensures Logged(log + [e], h, names, t)
         == Logged(log, h, names, t) + if e.hist == h && RemoteTuple(names, e.target) == t then e.n else 0
  {
    assert (log + [e])[..|log|] == log;
  }

  lemma RecordCounts(w: World, e: Event, w': World)
    requires Accounts(w) && e.Record? && Next(w, e) == Some(w')
    ensures forall h: nat :: h < |w'.vecs| ==> Counted(w', h)
  {
    hide Logged, CountIn, Observed, RemoteTuple;
    var g := w.scheds[e.i].hist;
    forall h: nat | h < |w'.vecs| ensures Counted(w', h) {
      assert Counted(w, h);
      forall t ensures CountIn(w'.vecs[h], t) == Logged(w'.log, h, w'.vecs[h].names, t) {
        ObservedCount(w.vecs[g], RemoteTuple(w.vecs[g].names, e.target), e.n, t);
        LoggedMore(w.log, Entry(e.i, g, e.target, e.n), h, w.vecs[h].names, t);
      }
    }
  }

  lemma LogKept(w: World, e: Event, w': World)
    requires Generations(w) && LogRight(w) && Next(w, e) == Some(w')
    ensures LogRight(w')
  {
    hide RemoteTuple, Observed, ResetFor, TargetsOf, StartedPhase;
    match e
    case StopOne =>
      var i := w.started[w.pc.k];
      assert forall j: nat :: j < |w.scheds| && j != i ==> w'.scheds[j] == w.scheds[j];
    case StartOne =>
      var i := w.started[w.pc.k];
      assert forall j: nat :: j < |w.scheds| && j != i ==> w'.scheds[j] == w.scheds[j];
    case PrepareOk(_, routers) =>
      assert forall j: nat :: j < |w.scheds| ==> w'.scheds[j] == w.scheds[j];
    case _ =>
  }

  lemma AccountsKept(w: World, e: Event, w': World)
    requires Accounts(w) && Next(w, e) == Some(w')
    ensures Accounts(w')
  {
    GenerationsKept(w, e, w');
    LogKept(w, e, w');
    match e
    case InitMetrics(_) => InitCounts(w, e, w');
    case MakeCollector => CollectorCounts(w, w');
    case Record(_, _, _) => RecordCounts(w, e, w');
    case _ => OthersCount(w, e, w');
  }

  lemma OthersCount(w: World, e: Event, w': World)
    requires Accounts(w) && Next(w, e) == Some(w') && !e.InitMetrics? && !e.MakeCollector? && !e.Record?
    ensures forall h: nat :: h < |w'.vecs| ==> Counted(w', h)
  {
    hide Generations, LogRight, Counted;
    forall h: nat | h < |w'.vecs| ensures Counted(w', h) {
      assert Counted(w, h);
      SameCount(w, w', h);
    }
  }

  lemma {:induction false} AccountsAlways(trace: seq<World>, events: seq<Event>, k: nat)
    requires Run(trace, events) && k < |trace|
    ensures Accounts(trace[k])
  {
    hide Next;
    if k > 0 {
      AccountsAlways(trace, events, k - 1);
      AccountsKept(trace[k - 1], events[k - 1], trace[k]);
    }
  }

  /** In every state of every run, through start-up and any reloads, each vector
      holds for each label tuple exactly the replies recorded into it for the
      targets that carry the tuple: no reset ever wiped one. */
  lemma NothingIsWiped(trace: seq<World>, events: seq<Event>, k: nat, h: nat, t: seq<string>)
    requires Run(trace, events) && k < |trace| && h < |trace[k].vecs|
    ensures CountIn(trace[k].vecs[h], t) == Logged(trace[k].log, h, trace[k].vecs[h].names, t)
  {
    hide Run, Generations, LogRight, CountIn, Logged;
    AccountsAlways(trace, events, k);
    assert Counted(trace[k], h);
  }

  // ---- Which vector is seen ------------------------------------------------------------

  /** Whether the last reload that got past its configuration also went through. */
  function LastReloadGood(events: seq<Event>): bool {
    events != [] &&
    match events[|events| - 1]
    case PrepareFailed => false
    case NoTargets => false
    case Finish => true
    case _ => LastReloadGood(events[..|events| - 1])
  }

  ghost predicate Seen(w: World) { Shape(w) && forall i :: i in w.started ==> w.scheds[i].hist == |w.vecs| - 1 }

  lemma SeenStep(w: World, e: Event, w': World, good: bool)
    requires Generations(w) && Next(w, e) == Some(w')
    requires w.pc.Idle? ==> if good then Seen(w) else Unseen(w)
    ensures Shape(w')
    ensures w'.pc.Idle? ==>
              match e
              case PrepareFailed => Unseen(w')
              case NoTargets => Unseen(w')
              case Finish => Seen(w')
              case _ => if good then Seen(w') else Unseen(w')
  {
    hide RemoteTuple, Observed, ResetFor, TargetsOf;
    GenerationsKept(w, e, w');
  }

  lemma {:induction false} SeenAlways(trace: seq<World>, events: seq<Event>, k: nat)
    requires Run(trace, events) && k < |trace|
    ensures Shape(trace[k])
    ensures trace[k].pc.Idle? ==> if LastReloadGood(events[..k]) then Seen(trace[k]) else Unseen(trace[k])
  {
    hide Next, Seen, Unseen;
    GenerationsAlways(trace, events, k);
    if k > 0 {
      SeenAlways(trace, events, k - 1);
      GenerationsAlways(trace, events, k - 1);
      SeenStep(trace[k - 1], events[k - 1], trace[k], LastReloadGood(events[..k - 1]));
      assert events[..k][..k - 1] == events[..k - 1];
    }
  }

  /** Between reloads, a running scheduler writes to the vector that is registered
      if and only if the last reload with a usable configuration went through. */
  lemma ResultsAreSeenIff(trace: seq<World>, events: seq<Event>, k: nat, i: nat)
    requires Run(trace, events) && k < |trace| && trace[k].pc.Idle?
    requires i < |trace[k].scheds| && trace[k].scheds[i].phase.Running?
    ensures trace[k].scheds[i].hist == |trace[k].vecs| - 1 <==> LastReloadGood(events[..k])
  {
    hide Run, Next;
    SeenAlways(trace, events, k);
    GenerationsAlways(trace, events, k);
  }

  /** After a reload that failed in prepare, or found no targets, the old
      schedulers keep running and their sent packets stay exported, but the
      registered vector holds no reply, whatever they record. */
  lemma FailedReloadHidesReplies(trace: seq<World>, events: seq<Event>, k: nat, t: seq<string>)
    requires Run(trace, events) && k < |trace| && trace[k].pc.Idle? && !LastReloadGood(events[..k])
    ensures trace[k].vecs != [] && CountIn(trace[k].vecs[|trace[k].vecs| - 1], t) == 0
    ensures trace[k].collector == trace[k].started
    ensures forall i: nat :: i < |trace[k].scheds| && i in trace[k].started ==> trace[k].scheds[i].phase.Running?
  {
    hide Run, Next, CountIn, LogRight, Logged;
    SeenAlways(trace, events, k);
    OneGeneration(trace, events, k);
    AccountsAlways(trace, events, k);
    var w := trace[k];
    var h := |w.vecs| - 1;
    assert Counted(w, h);
    NotYetUsed(w);
    LoggedNothing(w.log, h, w.vecs[h].names, t);
  }

  /** The run goes on by one event. */
  lemma OneMore(trace: seq<World>, events: seq<Event>, e: Event) returns (trace': seq<World>, events': seq<Event>)
    requires Run(trace, events) && Shape(trace[|events|]) && Next(trace[|events|], e).Some?
    ensures events' == events + [e] && Run(trace', events')
    ensures trace'[|events'|] == Next(trace[|events|], e).value
  {
    hide Next, Shape;
    trace', events' := trace + [Next(trace[|events|], e).value], events + [e];
  }

  /** It happens from any state: whenever a scheduler runs, a reload may fail in
      prepare, and the next replies the scheduler records add to the vector it
      captured while the registered one stays empty. */
  lemma FailedReloadExample(trace: seq<World>, events: seq<Event>, i: nat, x: TargetInfo, n: nat, names: seq<string>)
    returns (trace': seq<World>, events': seq<Event>)
    requires Run(trace, events) && trace[|events|].pc.Idle? && trace[|events|].serving
    requires i < |trace[|events|].scheds| && trace[|events|].scheds[i].phase.Running?
    requires x in trace[|events|].scheds[i].targets
    requires trace[|events|].scheds[i].hist < |trace[|events|].vecs|
    ensures events' == events + [ReloadOk, InitMetrics(names), PrepareFailed, Record(i, x, n)] && Run(trace', events')
    ensures var w, w' := trace[|events|], trace'[|events'|];
            var h := w.scheds[i].hist; var t := RemoteTuple(w.vecs[h].names, x);
            && w'.pc.Idle? && w'.scheds == w.scheds && |w'.vecs| == |w.vecs| + 1
            && CountIn(w'.vecs[h], t) == CountIn(w.vecs[h], t) + n
            && w'.vecs[|w.vecs|] == Vec(names, map[])
  {
    hide RemoteTuple, Observed, CountIn;
    var w := trace[|events|];
    GenerationsAlways(trace, events, |events|);
    trace', events' := OneMore(trace, events, ReloadOk);
    trace', events' := OneMore(trace', events', InitMetrics(names));
    trace', events' := OneMore(trace', events', PrepareFailed);
    trace', events' := OneMore(trace', events', Record(i, x, n));
    var h := w.scheds[i].hist;
    ObservedCount(w.vecs[h], RemoteTuple(w.vecs[h].names, x), n, RemoteTuple(w.vecs[h].names, x));
  }
}
