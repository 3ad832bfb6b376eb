/** The series of a whole configuration: the collector exports the targets of all
    groups at once, so their label tuples have to differ across groups too. */
module Series {
  import opened Text
  import opened Huawei
  import opened Config
  import opened Targets
  import opened Labels
  import opened Prober
  import opened Validated
  import opened Wrappers

  // ---- When two targets share a series ---------------------------------------------------

  function LabelOf(labels: map<string, string>, key: string): string { if key in labels then labels[key] else "" }

  /** Labels of base names do not count, and a missing label is an empty one. */
  ghost predicate LabelsAgree(a: map<string, string>, b: map<string, string>) {
    forall key :: key !in BASE_NAMES ==> LabelOf(a, key) == LabelOf(b, key)
  }

  ghost predicate SameSeries(x: TargetInfo, y: TargetInfo) {
    && x.job.target == y.job.target && x.host == y.host && x.job.source == y.job.source
    && x.job.tos == y.job.tos && x.link == y.link && LabelsAgree(x.labels, y.labels)
  }

  /** The labels are those of one of the groups. */
  ghost predicate OfGroups(targets: seq<TargetGroup>, labels: map<string, string>) {
    exists k :: 0 <= k < |targets| && targets[k].labels == labels
  }

  lemma ExtraNames(targets: seq<TargetGroup>, names: seq<string>, labels: map<string, string>, key: string)
    requires NamesOf(targets, names) && OfGroups(targets, labels) && key in labels && key !in BASE_NAMES
    ensures exists i :: 5 <= i < |names| && names[i] == key
  {
    hide Sorted, Less;
    var k :| 0 <= k < |targets| && targets[k].labels == labels;
    assert IsExtra(targets, key);
    var j :| 0 <= j < |names[5..]| && names[5..][j] == key;
    assert names[j + 5] == key;
  }

  lemma ExtraIsNoBase(targets: seq<TargetGroup>, names: seq<string>, i: nat)
    requires NamesOf(targets, names) && 5 <= i < |names|
    ensures names[i] !in BASE_NAMES
  {
    hide Sorted, Less;
    assert names[5..][i - 5] == names[i];
    assert IsExtra(targets, names[i]);
  }

  lemma TupleParts(targets: seq<TargetGroup>, names: seq<string>, x: TargetInfo)
    requires NamesOf(targets, names)
    ensures |names| >= 5 && |RemoteTuple(names, x)| == |names|
    ensures RemoteTuple(names, x)[..5] == [x.job.target, x.host, x.job.source, IntText(x.job.tos), x.link]
    ensures forall i :: 5 <= i < |names| ==> RemoteTuple(names, x)[i] == LabelOf(x.labels, names[i])
  {
    hide NamesOf, BaseOf;
    TupleHead(targets, names, x.job.target, x.host, x.job.source, x.job.tos, x.link, x.labels);
  }

  lemma TosText(a: Byte, b: Byte)
    requires IntText(a) == IntText(b)
    ensures a == b
  {
    IntTextRoundTrip(a);
    IntTextRoundTrip(b);
  }

  /** Two targets have the same label tuple if and only if address, host, source,
      ToS and link agree, and so do their labels. */
  lemma TupleEquality(targets: seq<TargetGroup>, names: seq<string>, x: TargetInfo, y: TargetInfo)
    requires NamesOf(targets, names) && OfGroups(targets, x.labels) && OfGroups(targets, y.labels)
    ensures RemoteTuple(names, x) == RemoteTuple(names, y) <==> SameSeries(x, y)
  {
    hide NamesOf, RemoteTuple, IntText, OfGroups;
    TupleParts(targets, names, x);
    TupleParts(targets, names, y);
    var a, b := RemoteTuple(names, x), RemoteTuple(names, y);
    if a == b {
      assert a[..5][0] == b[..5][0] && a[..5][1] == b[..5][1] && a[..5][2] == b[..5][2];
      assert a[..5][3] == b[..5][3] && a[..5][4] == b[..5][4];
      TosText(x.job.tos, y.job.tos);
      forall key | key !in BASE_NAMES ensures LabelOf(x.labels, key) == LabelOf(y.labels, key) {
        if key in x.labels {
          ExtraNames(targets, names, x.labels, key);
        } else if key in y.labels {
          ExtraNames(targets, names, y.labels, key);
        }
      }
    }
    if SameSeries(x, y) {
      forall i | 5 <= i < |names| ensures a[i] == b[i] {
        ExtraIsNoBase(targets, names, i);
      }
      assert a == a[..5] + a[5..] && b == b[..5] + b[5..];
      assert a[..5] == b[..5] && a[5..] == b[5..];
    }
  }

  // ---- When two groups share one -----------------------------------------------------------

  /** The links a group may use. */
  function LinksOf(routers: seq<Router>, tg: TargetGroup): seq<Link> {
    Selected(NamedRouter(routers, tg.router).links, tg.links)
  }

  /** Something that is to be pinged for the group. */
  ghost predicate Pings(routers: seq<Router>, tg: TargetGroup, env: Env, host: string, l: Link) {
    && tg.router != "" && host in tg.hosts && l in LinksOf(routers, tg)
    && env.resolve(host, tg.network).Some?
    && SourceFor(l, !env.resolve(host, tg.network).value.v4) != ""
  }

  lemma InfoFrom(routers: seq<Router>, tg: TargetGroup, env: Env, x: TargetInfo)
    requires x in GroupInfos(routers, tg, env)
    ensures exists host, l :: Pings(routers, tg, env, host, l)
                              && x == MakeInfo(tg, l, host, env.resolve(host, tg.network).value)
  {
    hide GroupTargets, Origins, InOrder, Selected, MakeInfo, SourceFor;
    var r := NamedRouter(routers, tg.router);
    var xs, os := GroupTargets(tg, r, env.resolve), Origins(tg.network, LinksOf(routers, tg), tg.hosts, env.resolve);
    ProductInOrder(tg, r, env.resolve);
    var k :| 0 <= k < |xs| && xs[k] == x;
    assert From(tg, LinksOf(routers, tg), tg.hosts, env.resolve, x, os[k]);
    assert Wanted(tg.network, LinksOf(routers, tg), tg.hosts, env.resolve, os[k]);
    assert Pings(routers, tg, env, tg.hosts[os[k].host], LinksOf(routers, tg)[os[k].link]);
  }

  lemma InfoOf(routers: seq<Router>, tg: TargetGroup, env: Env, host: string, l: Link)
    requires Pings(routers, tg, env, host, l)
    ensures MakeInfo(tg, l, host, env.resolve(host, tg.network).value) in GroupInfos(routers, tg, env)
  {
    hide GroupTargets, Origins, InOrder, Selected, MakeInfo, SourceFor;
    var r, links := NamedRouter(routers, tg.router), LinksOf(routers, tg);
    var xs, os := GroupTargets(tg, r, env.resolve), Origins(tg.network, links, tg.hosts, env.resolve);
    ProductInOrder(tg, r, env.resolve);
    var i :| 0 <= i < |tg.hosts| && tg.hosts[i] == host;
    var j :| 0 <= j < |links| && links[j] == l;
    assert Wanted(tg.network, links, tg.hosts, env.resolve, Origin(i, j));
    var k :| 0 <= k < |os| && os[k] == Origin(i, j);
    assert From(tg, links, tg.hosts, env.resolve, xs[k], os[k]);
  }

  /** Two groups ping a common host at the same address, with the same ToS and
      agreeing labels, over links of the same name and the same source address. */
  ghost predicate GroupsClash(routers: seq<Router>, a: TargetGroup, b: TargetGroup, env: Env) {
    && a.tos == b.tos && LabelsAgree(a.labels, b.labels)
    && exists host, l, m :: Clash(routers, a, b, env, host, l, m)
  }

  ghost predicate Clash(routers: seq<Router>, a: TargetGroup, b: TargetGroup, env: Env, host: string, l: Link,
      m: Link) {
    && Pings(routers, a, env, host, l) && Pings(routers, b, env, host, m)
    && l.name == m.name
    && var p, q := env.resolve(host, a.network).value, env.resolve(host, b.network).value;
       p.text == q.text && SourceFor(l, !p.v4) == SourceFor(m, !q.v4)
  }

  /** Some target of the one shares its series with some target of the other. */
  ghost predicate Overlap(routers: seq<Router>, a: TargetGroup, b: TargetGroup, env: Env) {
    exists x, y :: x in GroupInfos(routers, a, env) && y in GroupInfos(routers, b, env) && SameSeries(x, y)
  }

  lemma OverlapIsClash(routers: seq<Router>, a: TargetGroup, b: TargetGroup, env: Env)
    ensures Overlap(routers, a, b, env) <==> GroupsClash(routers, a, b, env)
  {
    hide GroupInfos, LabelsAgree, SourceFor, LinksOf;
    if Overlap(routers, a, b, env) {
      var x, y :| x in GroupInfos(routers, a, env) && y in GroupInfos(routers, b, env) && SameSeries(x, y);
      InfoFrom(routers, a, env, x);
      InfoFrom(routers, b, env, y);
      var host, l :| Pings(routers, a, env, host, l) && x == MakeInfo(a, l, host, env.resolve(host, a.network).value);
      var other, m :| Pings(routers, b, env, other, m) && y == MakeInfo(b, m, other, env.resolve(other,
          b.network).value);
      PingsResolve(routers, a, env, host, l);
      PingsResolve(routers, b, env, other, m);
      assert Clash(routers, a, b, env, host, l, m);
    }
    if GroupsClash(routers, a, b, env) {
      var host, l, m :| Clash(routers, a, b, env, host, l, m);
      PingsResolve(routers, a, env, host, l);
      PingsResolve(routers, b, env, host, m);
      InfoOf(routers, a, env, host, l);
      InfoOf(routers, b, env, host, m);
      var x := MakeInfo(a, l, host, env.resolve(host, a.network).value);
      var y := MakeInfo(b, m, host, env.resolve(host, b.network).value);
      assert SameSeries(x, y);
    }
  }

  lemma PingsResolve(routers: seq<Router>, tg: TargetGroup, env: Env, host: string, l: Link)
    requires Pings(routers, tg, env, host, l)
    ensures env.resolve(host, tg.network).Some?
  {}

  // ---- The whole configuration -------------------------------------------------------------

  ghost predicate Apart(names: seq<string>, xs: seq<TargetInfo>, ys: seq<TargetInfo>) {
    forall x, y :: x in xs && y in ys ==> RemoteTuple(names, x) != RemoteTuple(names, y)
  }

  lemma DistinctOfTwo(names: seq<string>, a: seq<TargetInfo>, b: seq<TargetInfo>)
    ensures TuplesDistinct(names, a + b) <==> TuplesDistinct(names, a) && TuplesDistinct(names, b) && Apart(names, a, b)
  {
    hide RemoteTuple;
    var s := a + b;
    if TuplesDistinct(names, s) {
      forall i, j | 0 <= i < j < |a| ensures RemoteTuple(names, a[i]) != RemoteTuple(names, a[j]) {
        assert s[i] == a[i] && s[j] == a[j];
      }
      forall i, j | 0 <= i < j < |b| ensures RemoteTuple(names, b[i]) != RemoteTuple(names, b[j]) {
        assert s[|a| + i] == b[i] && s[|a| + j] == b[j];
      }
      forall x, y | x in a && y in b ensures RemoteTuple(names, x) != RemoteTuple(names, y) {
        var i :| 0 <= i < |a| && a[i] == x;
        var j :| 0 <= j < |b| && b[j] == y;
        assert s[i] == x && s[|a| + j] == y;
      }
    }
    if TuplesDistinct(names, a) && TuplesDistinct(names, b) && Apart(names, a, b) {
      forall i, j | 0 <= i < j < |s| ensures RemoteTuple(names, s[i]) != RemoteTuple(names, s[j]) {
        if |a| <= i {
          assert s[i] == b[i - |a|] && s[j] == b[j - |a|];
        } else if |a| <= j {
          assert s[i] == a[i] && s[j] == b[j - |a|] && a[i] in a && b[j - |a|] in b;
        }
      }
    }
  }

  lemma {:induction false} BuiltFrom(routers: seq<Router>, groups: seq<TargetGroup>, env: Env, x: TargetInfo)
    ensures x in BuiltInfos(routers, groups, env)
       <==> exists k :: 0 <= k < |groups| && x in GroupInfos(routers, groups[k], env)
  {
    hide GroupInfos;
    if groups != [] {
      var n := |groups| - 1;
      BuiltFrom(routers, groups[..n], env, x);
      if k :| 0 <= k < |groups| && x in GroupInfos(routers, groups[k], env) {
        if k < n {
          assert groups[..n][k] == groups[k];
        }
      }
    }
  }

  /** No host of a group is listed twice, and no two groups clash. */
  ghost predicate SeriesDisjoint(c: Config, env: Env, n: nat)
    requires n <= |c.targets|
  {
    && (forall k :: 0 <= k < n && c.targets[k].router != "" ==> Distinct(c.targets[k].hosts))
    && (forall k, l :: 0 <= k < l < n ==> !GroupsClash(c.routers, c.targets[k], c.targets[l], env))
  }

  lemma GroupLabels(c: Config, k: nat, env: Env, x: TargetInfo)
    requires k < |c.targets| && x in GroupInfos(c.routers, c.targets[k], env)
    ensures OfGroups(c.targets, x.labels)
  {
    hide GroupInfos;
    InfoFrom(c.routers, c.targets[k], env, x);
    var host, l :| Pings(c.routers, c.targets[k], env, host, l)
                   && x == MakeInfo(c.targets[k], l, host, env.resolve(host, c.targets[k].network).value);
    assert c.targets[k].labels == x.labels;
  }

  lemma ApartExactly(c: Config, env: Env, names: seq<string>, n: nat)
    requires NamesOf(c.targets, names) && n < |c.targets|
    ensures Apart(names, BuiltInfos(c.routers, c.targets[..n], env), GroupInfos(c.routers, c.targets[n], env))
       <==> forall k :: 0 <= k < n ==> !GroupsClash(c.routers, c.targets[k], c.targets[n], env)
  {
    hide NamesOf, RemoteTuple, GroupInfos, SameSeries, OfGroups, BuiltInfos, GroupsClash, Overlap;
    var xs, ys := BuiltInfos(c.routers, c.targets[..n], env), GroupInfos(c.routers, c.targets[n], env);
    forall k | 0 <= k < n && GroupsClash(c.routers, c.targets[k], c.targets[n], env) ensures !Apart(names, xs, ys) {
      OverlapIsClash(c.routers, c.targets[k], c.targets[n], env);
      var x, y := OverlapPair(c.routers, c.targets[k], c.targets[n], env);
      BuiltFrom(c.routers, c.targets[..n], env, x) by { assert c.targets[..n][k] == c.targets[k]; }
      assert c.targets[..n][k] == c.targets[k];
      GroupLabels(c, k, env, x);
      GroupLabels(c, n, env, y);
      TupleEquality(c.targets, names, x, y);
    }
    if !Apart(names, xs, ys) {
      var x, y :| x in xs && y in ys && RemoteTuple(names, x) == RemoteTuple(names, y);
      BuiltFrom(c.routers, c.targets[..n], env, x);
      var k :| 0 <= k < n && x in GroupInfos(c.routers, c.targets[..n][k], env);
      assert c.targets[..n][k] == c.targets[k];
      GroupLabels(c, k, env, x);
      GroupLabels(c, n, env, y);
      TupleEquality(c.targets, names, x, y);
      IsOverlap(c.routers, c.targets[k], c.targets[n], env, x, y);
      OverlapIsClash(c.routers, c.targets[k], c.targets[n], env);
    }
  }

  lemma OverlapPair(routers: seq<Router>, a: TargetGroup, b: TargetGroup, env: Env)
      returns (x: TargetInfo, y: TargetInfo)
    requires Overlap(routers, a, b, env)
    ensures x in GroupInfos(routers, a, env) && y in GroupInfos(routers, b, env) && SameSeries(x, y)
  {
    hide GroupInfos, SameSeries;
    x, y :| x in GroupInfos(routers, a, env) && y in GroupInfos(routers, b, env) && SameSeries(x, y);
  }

  lemma IsOverlap(routers: seq<Router>, a: TargetGroup, b: TargetGroup, env: Env, x: TargetInfo, y: TargetInfo)
    requires x in GroupInfos(routers, a, env) && y in GroupInfos(routers, b, env) && SameSeries(x, y)
    ensures Overlap(routers, a, b, env)
  {}

  /** Every router group of the configuration can be built. */
  ghost predicate AllBuildable(c: Config, env: Env) {
    forall k :: 0 <= k < |c.targets| && c.targets[k].router != "" ==>
      Buildable(c.targets[k], NamedRouter(c.routers, c.targets[k].router), env.resolve)
  }

  lemma OneGroupDistinct(parse: Parser, c: Config, env: Env, names: seq<string>, k: nat)
    requires WellFormed(parse, c) && AllBuildable(c, env) && NamesOf(c.targets, names) && k < |c.targets|
    ensures TuplesDistinct(names, GroupInfos(c.routers, c.targets[k], env))
       <==> (c.targets[k].router != "" ==> Distinct(c.targets[k].hosts))
  {
    hide NamesOf, WellFormed, RouterOk, RoutedGroupOk, Buildable, GroupTargets, Distinct, IsRouterOf, RemoteTuple;
    var tg := c.targets[k];
    if tg.router != "" {
      GroupHasRouter(parse, c, tg);
      GroupTuplesDistinct(parse, c.targets, names, NamedRouter(c.routers, tg.router), tg, env.resolve);
    }
  }

  lemma {:induction false} GroupsDistinct(parse: Parser, c: Config, env: Env, names: seq<string>, n: nat)
    requires WellFormed(parse, c) && AllBuildable(c, env) && NamesOf(c.targets, names) && n <= |c.targets|
    ensures TuplesDistinct(names, BuiltInfos(c.routers, c.targets[..n], env)) <==> SeriesDisjoint(c, env, n)
  {
    hide NamesOf, WellFormed, AllBuildable, GroupInfos, Distinct, TuplesDistinct, Apart, GroupsClash;
    if n == 0 {
      assert c.targets[..0] == [];
      NoneAlike(names);
    } else {
      var m := n - 1;
      GroupsDistinct(parse, c, env, names, m);
      OneGroupDistinct(parse, c, env, names, m);
      ApartExactly(c, env, names, m);
      assert c.targets[..n][..m] == c.targets[..m];
      DistinctOfTwo(names, BuiltInfos(c.routers, c.targets[..m], env), GroupInfos(c.routers, c.targets[m], env));
    }
  }

  lemma NoneAlike(names: seq<string>)
    ensures TuplesDistinct(names, [])
  {}

  /** All the targets of a configuration have series of their own if and only if no
      router group lists a host twice and no two groups clash: ping a common host at
      the same address, with the same ToS and labels, over links of the same name and
      source. Validation asks for neither. */
  lemma ConfigTuplesDistinct(parse: Parser, c: Config, env: Env, names: seq<string>)
    requires WellFormed(parse, c) && AllBuildable(c, env) && NamesOf(c.targets, names)
    ensures TuplesDistinct(names, BuiltInfos(c.routers, c.targets, env)) <==> SeriesDisjoint(c, env, |c.targets|)
  {
    hide NamesOf, WellFormed, AllBuildable, BuiltInfos, TuplesDistinct, SeriesDisjoint;
    GroupsDistinct(parse, c, env, names, |c.targets|);
    assert c.targets[..|c.targets|] == c.targets;
  }

  // ---- Valid configurations without them ------------------------------------------------------

  /** A group that pings the address of the sample router's link, perhaps more than once. */
  function SampleGroup(hosts: seq<string>, interval: int): TargetGroup {
    SAMPLE_GROUP.(hosts := hosts, interval := interval)
  }

  predicate IsSample(tg: TargetGroup) {
    && tg == SampleGroup(tg.hosts, tg.interval) && tg.interval > 0
    && forall k :: 0 <= k < |tg.hosts| ==> tg.hosts[k] == V4_SOURCE
  }

  function SampleConfig(targets: seq<TargetGroup>): Config { Config([SAMPLE_ROUTER], targets) }

  function SampleEnv(): Env { Env(ResolverOf(SampleParse, SampleDns), ResolverOf(SampleParse, SampleDns), r => true) }

  lemma SampleReaches(tg: TargetGroup)
    requires tg.links == []
    ensures Reaches(SAMPLE_ROUTER, tg, false)
  {
    assert SourceFor(SAMPLE_ROUTER.links[0], false) == V4_SOURCE != "";
    assert Eligible(SAMPLE_ROUTER.links[0], tg.links);
  }

  lemma SampleRouterFound(targets: seq<TargetGroup>)
    ensures NamedRouter(SampleConfig(targets).routers, "r1") == SAMPLE_ROUTER
    ensures IsRouterOf(SampleConfig(targets).routers, 0, "r1")
  {}

  lemma SampleGroupIsValid(targets: seq<TargetGroup>, tg: TargetGroup)
    requires IsSample(tg)
    ensures GroupOk(SampleParse, SampleConfig(targets), tg) && tg.router == "r1"
    ensures Buildable(tg, SAMPLE_ROUTER, SampleEnv().resolve)
  {
    SampleReaches(tg);
    assert RoutedGroupOk(SampleParse, SAMPLE_ROUTER, tg);
    SampleRouterFound(targets);
    ReachesSelected(SAMPLE_ROUTER, tg, false);
    assert SampleEnv().resolve(V4_SOURCE, "ip") == Some(Address(V4_SOURCE, true));
  }

  lemma SampleConfigIsValid(targets: seq<TargetGroup>)
    requires forall k :: 0 <= k < |targets| ==> IsSample(targets[k])
    ensures WellFormed(SampleParse, SampleConfig(targets)) && AllBuildable(SampleConfig(targets), SampleEnv())
  {
    hide IsSample, GroupOk, Buildable;
    var c := SampleConfig(targets);
    assert LinkOk(SampleParse, SAMPLE_ROUTER.links[0]);
    SampleRouterFound(targets);
    forall k | 0 <= k < |targets|
      ensures GroupOk(SampleParse, c, targets[k]) && targets[k].router == "r1"
      ensures Buildable(targets[k], SAMPLE_ROUTER, SampleEnv().resolve)
    {
      assert IsSample(targets[k]);
      SampleGroupIsValid(targets, targets[k]);
    }
  }

  /** A valid configuration that lists a host twice: its targets can be built, and two
      of them share a series. */
  lemma RepeatedHostIsValid(names: seq<string>)
    requires NamesOf([SampleGroup([V4_SOURCE, V4_SOURCE], SECOND)], names)
    ensures var c := SampleConfig([SampleGroup([V4_SOURCE, V4_SOURCE], SECOND)]);
            && WellFormed(SampleParse, c) && AllBuildable(c, SampleEnv())
            && !TuplesDistinct(names, BuiltInfos(c.routers, c.targets, SampleEnv()))
  {
    hide NamesOf, TuplesDistinct, BuiltInfos, AllBuildable, WellFormed;
    var c, env := SampleConfig([SampleGroup([V4_SOURCE, V4_SOURCE], SECOND)]), SampleEnv();
    SampleConfigIsValid(c.targets);
    assert !Distinct(c.targets[0].hosts) by {
      assert c.targets[0].hosts[0] == c.targets[0].hosts[1];
    }
    assert c.targets[0].router == "r1";
    assert !SeriesDisjoint(c, env, |c.targets|);
    ConfigTuplesDistinct(SampleParse, c, env, names);
  }

  /** A valid configuration of two groups that ping a common host alike, at different
      intervals: its targets can be built, no group lists a host twice, and two targets
      share a series. */
  lemma AlikeGroupsAreValid(names: seq<string>)
    requires NamesOf([SampleGroup([V4_SOURCE], SECOND), SampleGroup([V4_SOURCE], 60 * SECOND)], names)
    ensures var c := SampleConfig([SampleGroup([V4_SOURCE], SECOND), SampleGroup([V4_SOURCE], 60 * SECOND)]);
            && WellFormed(SampleParse, c) && AllBuildable(c, SampleEnv())
            && (forall k :: 0 <= k < |c.targets| ==> Distinct(c.targets[k].hosts))
            && !TuplesDistinct(names, BuiltInfos(c.routers, c.targets, SampleEnv()))
  {
    hide NamesOf, TuplesDistinct, BuiltInfos, AllBuildable, WellFormed;
    var c := SampleConfig([SampleGroup([V4_SOURCE], SECOND), SampleGroup([V4_SOURCE], 60 * SECOND)]);
    var env := SampleEnv();
    SampleConfigIsValid(c.targets);
    SamplesClash(c, c.targets[0], c.targets[1]);
    assert !SeriesDisjoint(c, env, |c.targets|);
    ConfigTuplesDistinct(SampleParse, c, env, names);
  }

  lemma SamplesClash(c: Config, a: TargetGroup, b: TargetGroup)
    requires c == SampleConfig(c.targets) && IsSample(a) && IsSample(b) && a.hosts == b.hosts == [V4_SOURCE]
    ensures GroupsClash(c.routers, a, b, SampleEnv())
  {
    var env, l := SampleEnv(), SAMPLE_ROUTER.links[0];
    SampleRouterFound(c.targets);
    assert env.resolve(V4_SOURCE, "ip") == Some(Address(V4_SOURCE, true));
    forall tg | tg == a || tg == b ensures Pings(c.routers, tg, env, V4_SOURCE, l) {
      SampleLink(c.targets, tg);
    }
    assert Clash(c.routers, a, b, env, V4_SOURCE, l, l);
  }

  lemma SampleLink(targets: seq<TargetGroup>, tg: TargetGroup)
    requires IsSample(tg)
    ensures SAMPLE_ROUTER.links[0] in LinksOf(SampleConfig(targets).routers, tg)
  {
    SampleRouterFound(targets);
    assert Eligible(SAMPLE_ROUTER.links[0], tg.links);
    assert Selected(SAMPLE_ROUTER.links, tg.links) == [SAMPLE_ROUTER.links[0]];
  }
}
