/** The metric vectors, the recorder of router results and the collector of
    collector.go. A vector maps label tuples to what was written under them. */
module Metrics {
  import opened Huawei
  import opened Labels
  import opened Targets
  import Lifecycle

  type LabelTuple = seq<string>

  // ---- Vectors ------------------------------------------------------------------------

  /** The observations under each tuple, oldest first. */
  class HistogramVec {
    var samples: map<LabelTuple, seq<int>>

    constructor ()
      ensures samples == map[]
    {
      samples := map[];
    }

    /** WithLabelValues creates the series if it is not there. */
    method Touch(t: LabelTuple)
      modifies this
      ensures samples == Touched(old(samples), t)
    {
      if t !in samples {
        samples := samples[t := []];
      }
    }

    method Observe(t: LabelTuple, v: int)
      modifies this
      ensures samples == Added(old(samples), t, [v])
    {
      samples := samples[t := (if t in samples then samples[t] else []) + [v]];
    }

    method Reset()
      modifies this
      ensures samples == map[]
    {
      samples := map[];
    }
  }

  class GaugeVec {
    var values: map<LabelTuple, int>

    constructor ()
      ensures values == map[]
    {
      values := map[];
    }

    method Touch(t: LabelTuple)
      modifies this
      ensures values == if t in old(values) then old(values) else old(values)[t := 0]
    {
      if t !in values {
        values := values[t := 0];
      }
    }

    method Assign(t: LabelTuple, v: int)
      modifies this
      ensures values == old(values)[t := v]
    {
      values := values[t := v];
    }

    method Reset()
      modifies this
      ensures values == map[]
    {
      values := map[];
    }
  }

  class CounterVec {
    var counts: map<LabelTuple, nat>

    constructor ()
      ensures counts == map[]
    {
      counts := map[];
    }

    method Touch(t: LabelTuple)
      modifies this
      ensures counts == if t in old(counts) then old(counts) else old(counts)[t := 0]
    {
      if t !in counts {
        counts := counts[t := 0];
      }
    }

    method Reset()
      modifies this
      ensures counts == map[]
    {
      counts := map[];
    }
  }

  function Touched(m: map<LabelTuple, seq<int>>, t: LabelTuple): map<LabelTuple, seq<int>> {
    if t in m then m else m[t := []]
  }

  /** The samples join those under the tuple; no samples leave no series behind. */
  function Added(m: map<LabelTuple, seq<int>>, t: LabelTuple, vs: seq<int>): map<LabelTuple, seq<int>> {
    if vs == [] then m else m[t := (if t in m then m[t] else []) + vs]
  }

  lemma AddedTwice(m: map<LabelTuple, seq<int>>, t: LabelTuple, a: seq<int>, b: seq<int>)
    ensures Added(Added(m, t, a), t, b) == Added(m, t, a + b)
  {
    if a == [] {
      assert a + b == b;
    } else if b == [] {
      assert a + b == a;
    } else {
      var before := if t in m then m[t] else [];
      assert (before + a) + b == before + (a + b);
    }
  }

  function Rtts(replies: seq<Reply>): seq<int> {
    seq(|replies|, i requires 0 <= i < |replies| => replies[i].rtt)
  }

  // ---- The recorder --------------------------------------------------------------------

  /** Writes into the vectors that were current when it was made. */
  class RemoteRecorder {
    const names: seq<string>
    const hist: HistogramVec
    const ttl: GaugeVec

    constructor (names: seq<string>, hist: HistogramVec, ttl: GaugeVec)
      ensures this.names == names && this.hist == hist && this.ttl == ttl
    {
      this.names, this.hist, this.ttl := names, hist, ttl;
    }

    /** One observation per reply, in order, and the TTL of the last reply; a
        result without replies writes nothing. */
    method Record(x: TargetInfo, res: PingResult)
      modifies hist, ttl
      ensures hist.samples == Added(old(hist.samples), RemoteTuple(names, x), Rtts(res.replies))
      ensures ttl.values == if res.replies == [] then old(ttl.values)
                            else old(ttl.values)[RemoteTuple(names, x) := res.replies[|res.replies| - 1].ttl]
      ensures var t := RemoteTuple(names, x);
              var before := if t in old(hist.samples) then old(hist.samples)[t] else [];
              if res.replies == [] then hist.samples == old(hist.samples)
              else
                && t in hist.samples && hist.samples == old(hist.samples)[t := hist.samples[t]]
                && |hist.samples[t]| == |before| + |res.replies| && before <= hist.samples[t]
                && forall i :: 0 <= i < |res.replies| ==> hist.samples[t][|before| + i] == res.replies[i].rtt
    {
      hide Added;
      var vals := LabelValues(names, BaseOf(x.job.target, x.host, x.job.source, x.job.tos, x.link), x.labels);
      ghost var t := RemoteTuple(names, x);
      NothingAdded(hist.samples, t);
      assert Rtts(res.replies[..0]) == [];
      for i := 0 to |res.replies|
        invariant hist.samples == Added(old(hist.samples), t, Rtts(res.replies[..i]))
        invariant ttl.values == old(ttl.values)
      {
        hist.Observe(vals, res.replies[i].rtt);
        AddedTwice(old(hist.samples), t, Rtts(res.replies[..i]), [res.replies[i].rtt]);
        assert Rtts(res.replies[..i]) + [res.replies[i].rtt] == Rtts(res.replies[..i + 1]);
      }
      assert res.replies[..|res.replies|] == res.replies;
      SamplesJoin(old(hist.samples), t, res.replies);
      if |res.replies| > 0 {
        ttl.Assign(vals, res.replies[|res.replies| - 1].ttl);
      }
    }
  }

  lemma SamplesJoin(m: map<LabelTuple, seq<int>>, t: LabelTuple, replies: seq<Reply>)
    ensures var after, before := Added(m, t, Rtts(replies)), if t in m then m[t] else [];
            if replies == [] then after == m
            else
              && t in after && after == m[t := after[t]]
              && |after[t]| == |before| + |replies| && before <= after[t]
              && forall i :: 0 <= i < |replies| ==> after[t][|before| + i] == replies[i].rtt
  {}

  lemma NothingAdded(m: map<LabelTuple, seq<int>>, t: LabelTuple)
    ensures Added(m, t, []) == m
  {}

  /** How many observations there are under each tuple. */
  function Counts(m: map<LabelTuple, seq<int>>): map<LabelTuple, nat> {
    map t | t in m :: |m[t]|
  }

  /** On the level of counts, Record is the step of the life cycle that records as
      many replies. */
  lemma RecordIsObserved(names: seq<string>, m: map<LabelTuple, seq<int>>, t: LabelTuple, replies: seq<Reply>)
    ensures Counts(Added(m, t, Rtts(replies))) == Lifecycle.Observed(Lifecycle.Vec(names, Counts(m)), t,
        |replies|).counts
  {
    assert |Rtts(replies)| == |replies|;
  }

  // ---- The collector -----------------------------------------------------------------------

  /** A local pinger, as far as its labels go. */
  datatype LocalProbe = LocalProbe(ip: string, host: string, source: string, tos: Byte, labels: map<string, string>)

  function ProbeTuple(names: seq<string>, p: LocalProbe): LabelTuple {
    LocalTuple(names, p.ip, p.host, p.source, p.tos, p.labels)
  }

  /** The series that updateProbes leaves in the vectors. */
  function SeriesOf(names: seq<string>, probes: seq<LocalProbe>, remote: seq<TargetInfo>): set<LabelTuple> {
    (set p | p in probes :: ProbeTuple(names, p)) + (set x | x in remote :: RemoteTuple(names, x))
  }

  function Empties(ts: set<LabelTuple>): map<LabelTuple, seq<int>> { map t | t in ts :: [] }

  function Zeros(ts: set<LabelTuple>): map<LabelTuple, int> { map t | t in ts :: 0 }

  function NoCounts(ts: set<LabelTuple>): map<LabelTuple, nat> { map t | t in ts :: 0 }

  /** The vectors that only local pingers count in. */
  ghost predicate NoneCounted(dups: CounterVec, errors: CounterVec, series: set<LabelTuple>)
    reads dups, errors
  {
    dups.counts == NoCounts(series) && errors.counts == NoCounts(series)
  }

  method InitCounters(dups: CounterVec, errors: CounterVec, ghost series: set<LabelTuple>, vals: LabelTuple)
    requires dups != errors && NoneCounted(dups, errors, series)
    modifies dups, errors
    ensures NoneCounted(dups, errors, series + {vals})
  {
    dups.Touch(vals);
    errors.Touch(vals);
  }

  lemma NoCounters(dups: CounterVec, errors: CounterVec, names: seq<string>)
    requires dups.counts == map[] && errors.counts == map[]
    ensures NoneCounted(dups, errors, SeriesOf(names, [], []))
  {}

  /** The vectors hold these series, and nothing in them. */
  ghost predicate AllEmpty(hist: HistogramVec, ttl: GaugeVec, series: set<LabelTuple>)
    reads hist, ttl
  {
    hist.samples == Empties(series) && ttl.values == Zeros(series)
  }

  method InitSeries(hist: HistogramVec, ttl: GaugeVec, ghost series: set<LabelTuple>, vals: LabelTuple)
    requires AllEmpty(hist, ttl, series)
    modifies hist, ttl
    ensures AllEmpty(hist, ttl, series + {vals})
  {
    hist.Touch(vals);
    ttl.Touch(vals);
  }

  lemma NoSeries(hist: HistogramVec, ttl: GaugeVec, names: seq<string>)
    requires hist.samples == map[] && ttl.values == map[]
    ensures AllEmpty(hist, ttl, SeriesOf(names, [], []))
  {}

  lemma MoreProbes(names: seq<string>, probes: seq<LocalProbe>, i: nat)
    requires i < |probes|
    ensures SeriesOf(names, probes[..i + 1], []) == SeriesOf(names, probes[..i], []) + {ProbeTuple(names, probes[i])}
  {
    hide ProbeTuple;
    assert probes[..i + 1] == probes[..i] + [probes[i]];
  }

  lemma MoreRemote(names: seq<string>, probes: seq<LocalProbe>, infos: seq<TargetInfo>, j: nat)
    requires j < |infos|
    ensures SeriesOf(names, probes, infos[..j + 1]) == SeriesOf(names, probes, infos[..j])
        + {RemoteTuple(names, infos[j])}
  {
    hide ProbeTuple, RemoteTuple;
    assert infos[..j + 1] == infos[..j] + [infos[j]];
  }

  lemma EmptyMeans(hist: HistogramVec, ttl: GaugeVec, series: set<LabelTuple>)
    requires AllEmpty(hist, ttl, series)
    ensures forall t :: t in hist.samples ==> hist.samples[t] == []
    ensures forall t :: t in ttl.values ==> ttl.values[t] == 0
  {}

  lemma NoneMeans(dups: CounterVec, errors: CounterVec, series: set<LabelTuple>)
    requires NoneCounted(dups, errors, series)
    ensures forall t :: t in dups.counts ==> dups.counts[t] == 0
    ensures forall t :: t in errors.counts ==> errors.counts[t] == 0
  {}

  datatype Metric = Metric(sent: nat, tuple: LabelTuple)

  class Collector {
    const names: seq<string>
    const remote: seq<Target>
    var probes: seq<LocalProbe>

    constructor (names: seq<string>, remote: seq<Target>)
      ensures this.names == names && this.remote == remote && probes == []
    {
      this.names, this.remote, probes := names, remote, [];
    }

    function RemoteInfos(): seq<TargetInfo> {
      seq(|remote|, i requires 0 <= i < |remote| => remote[i].info)
    }

    /** Whatever the vectors held is gone; every probe and every router target has
        its series, with nothing in it; duplicates and send errors are counted for
        local pingers only. */
    method UpdateProbes(probes: seq<LocalProbe>, hist: HistogramVec, ttl: GaugeVec, dups: CounterVec,
        errors: CounterVec)
      requires dups != errors
      modifies this, hist, ttl, dups, errors
      ensures this.probes == probes
      ensures NoneCounted(dups, errors, SeriesOf(names, probes, []))
      ensures AllEmpty(hist, ttl, SeriesOf(names, probes, RemoteInfos()))
      ensures forall t :: t in hist.samples ==> hist.samples[t] == []
      ensures forall t :: t in ttl.values ==> ttl.values[t] == 0
      ensures forall t :: t in dups.counts ==> dups.counts[t] == 0
      ensures forall t :: t in errors.counts ==> errors.counts[t] == 0
    {
      hide AllEmpty, NoneCounted, SeriesOf, LocalTuple, RemoteTuple;
      dups.Reset();
      hist.Reset();
      ttl.Reset();
      errors.Reset();
      NoSeries(hist, ttl, names);
      NoCounters(dups, errors, names);
      for i := 0 to |probes|
        invariant AllEmpty(hist, ttl, SeriesOf(names, probes[..i], []))
        invariant NoneCounted(dups, errors, SeriesOf(names, probes[..i], []))
      {
        InitCounters(dups, errors, SeriesOf(names, probes[..i], []), ProbeTuple(names, probes[i]));
        InitSeries(hist, ttl, SeriesOf(names, probes[..i], []), ProbeTuple(names, probes[i]));
        MoreProbes(names, probes, i);
      }
      assert probes[..|probes|] == probes;
      var infos := RemoteInfos();
      assert infos[..0] == [];
      for j := 0 to |remote|
        invariant AllEmpty(hist, ttl, SeriesOf(names, probes, infos[..j]))
        invariant NoneCounted(dups, errors, SeriesOf(names, probes, []))
      {
        assert infos[j] == remote[j].info;
        InitSeries(hist, ttl, SeriesOf(names, probes, infos[..j]), RemoteTuple(names, remote[j].info));
        MoreRemote(names, probes, infos, j);
      }
      assert infos[..|remote|] == infos;
      EmptyMeans(hist, ttl, SeriesOf(names, probes, infos));
      NoneMeans(dups, errors, SeriesOf(names, probes, []));
      this.probes := probes;
    }

    /** requests_total: the local pingers' counters, then those of the router
        targets; each target's counter once, under its own tuple. */
    method Collect(localSent: seq<nat>) returns (metrics: seq<Metric>)
      requires |localSent| == |probes|
      ensures |metrics| == |probes| + |remote|
      ensures forall i :: 0 <= i < |probes| ==> metrics[i] == Metric(localSent[i], ProbeTuple(names, probes[i]))
      ensures forall j :: 0 <= j < |remote| ==>
                metrics[|probes| + j] == Metric(remote[j].sent, RemoteTuple(names, remote[j].info))
    {
      hide LocalTuple, RemoteTuple, ProbeTuple;
      metrics := [];
      for i := 0 to |probes|
        invariant |metrics| == i
        invariant forall k :: 0 <= k < i ==> metrics[k] == Metric(localSent[k], ProbeTuple(names, probes[k]))
      {
        metrics := metrics + [Metric(localSent[i], ProbeTuple(names, probes[i]))];
      }
      for j := 0 to |remote|
        invariant |metrics| == |probes| + j
        invariant forall k :: 0 <= k < |probes| ==> metrics[k] == Metric(localSent[k], ProbeTuple(names, probes[k]))
        invariant forall k :: 0 <= k < j ==>
                    metrics[|probes| + k] == Metric(remote[k].sent, RemoteTuple(names, remote[k].info))
      {
        metrics := metrics + [Metric(remote[j].sent, RemoteTuple(names, remote[j].info))];
      }
    }
  }

  /** On the level of counts, updateProbes is the reset of the life cycle, whatever
      local probes there are: under every tuple it leaves the same number. */
  lemma ResetIsReset(names: seq<string>, probes: seq<LocalProbe>, remote: seq<TargetInfo>, t: LabelTuple)
    ensures Lifecycle.CountIn(Lifecycle.Vec(names, Counts(Empties(SeriesOf(names, probes, remote)))), t)
         == Lifecycle.CountIn(Lifecycle.ResetFor(names, remote), t)
    ensures t in Lifecycle.ResetFor(names, remote).counts ==> t in Counts(Empties(SeriesOf(names, probes, remote)))
  {}
}
