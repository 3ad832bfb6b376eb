/** The label tuples of the metrics: collector.go and buildLabelNamesFromConfig. */
module Labels {
  import opened Text
  import opened Huawei
  import opened Config
  import opened Targets

  const BASE_NAMES: seq<string> := ["ip", "host", "source", "tos", "link"]

  // ---- Label names ------------------------------------------------------------------

  /** The order of Go strings: byte by byte. */
  predicate Less(a: string, b: string) {
    if b == "" then false
    else if a == "" then true
    else a[0] < b[0] || (a[0] == b[0] && Less(a[1..], b[1..]))
  }

  lemma {:induction false} LessTransitive(a: string, b: string, c: string)
    requires Less(a, b) && Less(b, c)
    ensures Less(a, c)
  {
    if a != "" && a[0] == b[0] == c[0] {
      LessTransitive(a[1..], b[1..], c[1..]);
    }
  }

  lemma {:induction false} LessTotal(a: string, b: string)
    ensures Less(a, b) || a == b || Less(b, a)
    ensures !(Less(a, b) && Less(b, a)) && !Less(a, a)
  {
    if a != "" && b != "" {
      LessTotal(a[1..], b[1..]);
      LessTotal(a[1..], a[1..]);
      assert a[0] == b[0] && a[1..] == b[1..] ==> a == [a[0]] + a[1..] == b;
    } else if a != "" {
      LessTotal(a[1..], a[1..]);
    }
  }

  /** A string comes before another one if it is a beginning of it, or has the smaller
      byte at the first place where they differ. */
  lemma {:induction false} LessIsBytewise(a: string, b: string)
    ensures Less(a, b) <==> a < b || exists k :: 0 <= k < |a| && k < |b| && a[..k] == b[..k] && a[k] < b[k]
  {
    if a != "" && b != "" && a[0] == b[0] {
      LessIsBytewise(a[1..], b[1..]);
      assert a == [a[0]] + a[1..] && b == [b[0]] + b[1..];
      if k :| 0 <= k < |a[1..]| && k < |b[1..]| && a[1..][..k] == b[1..][..k] && a[1..][k] < b[1..][k] {
        assert a[..k + 1] == [a[0]] + a[1..][..k] && b[..k + 1] == [b[0]] + b[1..][..k];
        assert a[k + 1] < b[k + 1];
      }
      if k :| 0 <= k < |a| && k < |b| && a[..k] == b[..k] && a[k] < b[k] {
        assert k > 0;
        assert a[1..][..k - 1] == a[..k][1..] && b[1..][..k - 1] == b[..k][1..];
        assert a[1..][k - 1] < b[1..][k - 1];
      }
    } else if a != "" && b != "" {
      assert a[..0] == b[..0];
      forall k | 0 < k < |a| && k < |b| ensures a[..k] != b[..k] {
        assert a[..k][0] == a[0] && b[..k][0] == b[0];
      }
    }
  }

  predicate Sorted(names: seq<string>) { forall i, j :: 0 <= i < j < |names| ==> Less(names[i], names[j]) }

  /** Puts a name into a sorted list that lacks it. */
  method Insert(names: seq<string>, name: string) returns (r: seq<string>)
    requires Sorted(names) && name !in names
    ensures Sorted(r) && multiset(r) == multiset(names) + multiset{name}
  {
    hide Less, Sorted;
    var i := 0;
    while i < |names| && Less(names[i], name)
      invariant 0 <= i <= |names|
      invariant forall k :: 0 <= k < i ==> Less(names[k], name)
    {
      i := i + 1;
    }
    r := names[..i] + [name] + names[i..];
    assert names == names[..i] + names[i..];
    InsertedSorted(names, i, name);
  }

  lemma InsertedSorted(names: seq<string>, i: nat, name: string)
    requires Sorted(names) && i <= |names| && name !in names
    requires forall k :: 0 <= k < i ==> Less(names[k], name)
    requires i < |names| ==> !Less(names[i], name)
    ensures Sorted(names[..i] + [name] + names[i..])
  {
    hide Less;
    forall k | i <= k < |names| ensures Less(name, names[k]) {
      LessTotal(names[i], name);
      if k > i {
        LessTransitive(name, names[i], names[k]);
      }
    }
    var r := names[..i] + [name] + names[i..];
    forall j, k | 0 <= j < k < |r| ensures Less(r[j], r[k]) {
      assert r[j] == if j < i then names[j] else if j == i then name else names[j - 1];
      assert r[k] == if k < i then names[k] else if k == i then name else names[k - 1];
    }
  }

  /** The extra label names: the keys of the groups' own labels, base names aside. */
  ghost predicate IsExtra(targets: seq<TargetGroup>, name: string) {
    name !in BASE_NAMES && exists i :: 0 <= i < |targets| && name in targets[i].labels
  }

  ghost predicate NamesOf(targets: seq<TargetGroup>, names: seq<string>) {
    && |names| >= 5 && names[..5] == BASE_NAMES
    && Sorted(names[5..])
    && forall name :: name in names[5..] <==> IsExtra(targets, name)
  }

  ghost predicate Collected(targets: seq<TargetGroup>, n: nat, extras: seq<string>) {
    && n <= |targets| && Sorted(extras)
    && forall name :: name in extras <==> IsExtra(targets[..n], name)
  }

  /** The names of one group join the sorted extras. */
  method AddNames(extras: seq<string>, labels: map<string, string>) returns (r: seq<string>)
    requires Sorted(extras)
    ensures Sorted(r)
    ensures forall name :: name in r <==> name in extras || (name in labels && name !in BASE_NAMES)
  {
    hide Less, Sorted;
    var keys := labels.Keys;
    r := extras;
    while keys != {}
      invariant Sorted(r) && keys <= labels.Keys
      invariant forall name :: name in r <==> name in extras || (name in labels && name !in keys && name !in BASE_NAMES)
      decreases keys
    {
      var k :| k in keys;
      keys := keys - {k};
      if k !in BASE_NAMES && k !in r {
        var before := r;
        r := Insert(r, k);
        MembersInserted(before, r, k);
      }
    }
  }

  lemma MembersInserted(a: seq<string>, b: seq<string>, name: string)
    requires multiset(b) == multiset(a) + multiset{name}
    ensures forall x :: x in b <==> x in a || x == name
  {
    assert forall x :: x in b <==> x in multiset(b);
  }

  /** buildLabelNamesFromConfig: the base names, then the extra names in order,
      each once, in whatever order the maps are walked. */
  method BuildLabelNames(targets: seq<TargetGroup>) returns (names: seq<string>)
    ensures NamesOf(targets, names)
  {
    hide Less, Sorted;
    var extras: seq<string> := [];
    assert Sorted(extras) by { EmptySorted(); }
    for n := 0 to |targets|
      invariant Collected(targets, n, extras)
    {
      var more := AddNames(extras, targets[n].labels);
      forall name ensures name in more <==> IsExtra(targets[..n + 1], name) {
        ExtraGrows(targets, n, name);
      }
      extras := more;
    }
    assert targets[..|targets|] == targets;
    names := BASE_NAMES + extras;
    assert names[5..] == extras;
  }

  lemma EmptySorted()
    ensures Sorted([])
  {}

  lemma ExtraGrows(targets: seq<TargetGroup>, n: nat, name: string)
    requires n < |targets|
    ensures IsExtra(targets[..n + 1], name)
       <==> IsExtra(targets[..n], name) || (name in targets[n].labels && name !in BASE_NAMES)
  {
    if name !in BASE_NAMES {
      if i :| 0 <= i < n && name in targets[..n][i].labels {
        assert name in targets[..n + 1][i].labels;
      } else if name in targets[n].labels {
        assert name in targets[..n + 1][n].labels;
      }
    }
  }

  lemma TailOfSorted(a: seq<string>, x: string)
    requires Sorted(a) && a != []
    ensures x in a[1..] <==> x in a && x != a[0]
  {
    LessTotal(a[0], a[0]);
    assert a == [a[0]] + a[1..];
    if k :| 0 <= k < |a[1..]| && a[1..][k] == x {
      assert Less(a[0], a[k + 1]);
    }
  }

  lemma FirstOfSorted(a: seq<string>, b: seq<string>)
    requires Sorted(a) && Sorted(b) && (forall x :: x in a <==> x in b) && a != []
    ensures b != [] && a[0] == b[0]
    ensures forall x :: x in a[1..] <==> x in b[1..]
  {
    assert a[0] in b;
    var j :| 0 <= j < |b| && b[j] == a[0];
    assert b[0] in a;
    var i :| 0 <= i < |a| && a[i] == b[0];
    LessTotal(a[0], b[0]);
    assert a[0] == b[0];
    forall x ensures x in a[1..] <==> x in b[1..] {
      TailOfSorted(a, x);
      TailOfSorted(b, x);
    }
  }

  /** The names do not depend on the order in which Go walks a map. */
  lemma {:induction false} SortedUnique(a: seq<string>, b: seq<string>)
    requires Sorted(a) && Sorted(b) && forall x :: x in a <==> x in b
    ensures a == b
  {
    assert b != [] ==> b[0] in b;
    if a != [] {
      FirstOfSorted(a, b);
      SortedUnique(a[1..], b[1..]);
      assert a == [a[0]] + a[1..] && b == [b[0]] + b[1..];
    }
  }

  lemma NamesAreDetermined(targets: seq<TargetGroup>, a: seq<string>, b: seq<string>)
    requires NamesOf(targets, a) && NamesOf(targets, b)
    ensures a == b
  {
    hide Less, Sorted, IsExtra;
    SortedUnique(a[5..], b[5..]);
    assert a == a[..5] + a[5..] && b == b[..5] + b[5..];
  }

  // ---- Label values ------------------------------------------------------------------

  function ValueOf(name: string, base: map<string, string>, custom: map<string, string>): string {
    if name in base then base[name] else if name in custom then custom[name] else ""
  }

  function Tuple(names: seq<string>, base: map<string, string>, custom: map<string, string>): (r: seq<string>)
    ensures |r| == |names|
  {
    seq(|names|, i requires 0 <= i < |names| => ValueOf(names[i], base, custom))
  }

  /** labelValues. */
  method LabelValues(names: seq<string>, base: map<string, string>, custom: map<string, string>)
      returns (vals: seq<string>)
    ensures vals == Tuple(names, base, custom)
  {
    vals := [];
    for i := 0 to |names|
      invariant |vals| == i && forall k :: 0 <= k < i ==> vals[k] == ValueOf(names[k], base, custom)
    {
      var k := names[i];
      if k in base {
        vals := vals + [base[k]];
        continue;
      }
      vals := vals + [if k in custom then custom[k] else ""];
    }
  }

  function BaseOf(ip: string, host: string, source: string, tos: Byte, link: string): map<string, string> {
    map["ip" := ip, "host" := host, "source" := source, "tos" := IntText(tos), "link" := link]
  }

  /** remoteLabelValues. */
  function RemoteTuple(names: seq<string>, x: TargetInfo): (r: seq<string>)
    ensures |r| == |names|
  {
    Tuple(names, BaseOf(x.job.target, x.host, x.job.source, x.job.tos, x.link), x.labels)
  }

  /** buildLabelValues: a local pinger has no link. */
  function LocalTuple(names: seq<string>, ip: string, host: string, source: string, tos: Byte, labels: map<string,
      string>): (r: seq<string>)
    ensures |r| == |names|
  {
    Tuple(names, BaseOf(ip, host, source, tos, ""), labels)
  }

  lemma BaseValues(ip: string, host: string, source: string, tos: Byte, link: string, name: string)
    ensures var base := BaseOf(ip, host, source, tos, link);
            && (name in base <==> name in BASE_NAMES)
            && "ip" in base && "host" in base && "source" in base && "tos" in base && "link" in base
            && base["ip"] == ip && base["host"] == host && base["source"] == source
            && base["tos"] == IntText(tos) && base["link"] == link
  {
    assert |"ip"| == 2 && |"tos"| == 3 && |"source"| == 6 && "host"[0] != "link"[0];
    assert BASE_NAMES[0] == "ip" && BASE_NAMES[1] == "host" && BASE_NAMES[2] == "source";
    assert BASE_NAMES[3] == "tos" && BASE_NAMES[4] == "link";
  }

  lemma ExtraIsNotBase(targets: seq<TargetGroup>, name: string)
    requires IsExtra(targets, name)
    ensures name !in BASE_NAMES
  {}

  /** The five base labels stand in front, whatever the custom labels are: a
      custom label of the same name never overrides one. */
  lemma TupleHead(targets: seq<TargetGroup>, names: seq<string>, ip: string, host: string, source: string, tos: Byte,
                  link: string, custom: map<string, string>)
    requires NamesOf(targets, names)
    ensures |names| >= 5 && names[..5] == ["ip", "host", "source", "tos", "link"]
    ensures Tuple(names, BaseOf(ip, host, source, tos, link), custom)[..5] == [ip, host, source, IntText(tos), link]
    ensures forall i :: 5 <= i < |names| ==>
              Tuple(names, BaseOf(ip, host, source, tos, link),
                  custom)[i] == if names[i] in custom then custom[names[i]] else ""
  {
    hide Less, Sorted, IntText, BaseOf, IsExtra;
    var base := BaseOf(ip, host, source, tos, link);
    BaseValues(ip, host, source, tos, link, "");
    var head := Tuple(names, base, custom)[..5];
    assert forall i :: 0 <= i < 5 ==> names[i] == names[..5][i] == BASE_NAMES[i];
    assert names[0] == "ip" && names[1] == "host" && names[2] == "source" && names[3] == "tos" && names[4] == "link";
    assert head[0] == ip && head[1] == host && head[2] == source && head[3] == IntText(tos) && head[4] == link;
    forall i | 5 <= i < |names| ensures names[i] !in base {
      BaseValues(ip, host, source, tos, link, names[i]);
      assert names[i] == names[5..][i - 5];
      assert names[i] in names[5..] && IsExtra(targets, names[i]);
      ExtraIsNotBase(targets, names[i]);
    }
  }

  /** The labels of a router target and of a local pinger, in the order of the names. */
  lemma LabelsInOrder(targets: seq<TargetGroup>, names: seq<string>, x: TargetInfo, ip: string, host: string,
                      source: string, tos: Byte, labels: map<string, string>)
    requires NamesOf(targets, names)
    ensures |names| >= 5 && names[..5] == ["ip", "host", "source", "tos", "link"]
    ensures RemoteTuple(names, x)[..5] == [x.job.target, x.host, x.job.source, IntText(x.job.tos), x.link]
    ensures LocalTuple(names, ip, host, source, tos, labels)[..5] == [ip, host, source, IntText(tos), ""]
    ensures forall i :: 5 <= i < |names| ==>
              && RemoteTuple(names, x)[i] == (if names[i] in x.labels then x.labels[names[i]] else "")
              && LocalTuple(names, ip, host, source, tos, labels)[i] == (if names[i] in labels then labels[names[i]]
                                                                          else "")
  {
    hide NamesOf, Tuple, BaseOf, IntText;
    TupleHead(targets, names, x.job.target, x.host, x.job.source, x.job.tos, x.link, x.labels);
    TupleHead(targets, names, ip, host, source, tos, "", labels);
  }

  /** A series of a router target is never that of a local pinger. */
  lemma RemoteIsNotLocal(targets: seq<TargetGroup>, names: seq<string>, x: TargetInfo,
                         ip: string, host: string, source: string, tos: Byte, labels: map<string, string>)
    requires NamesOf(targets, names) && x.link != ""
    ensures RemoteTuple(names, x) != LocalTuple(names, ip, host, source, tos, labels)
  {
    hide NamesOf, Tuple, BaseOf;
    TupleHead(targets, names, x.job.target, x.host, x.job.source, x.job.tos, x.link, x.labels);
    TupleHead(targets, names, ip, host, source, tos, "", labels);
    assert RemoteTuple(names, x)[..5][4] == x.link;
    assert LocalTuple(names, ip, host, source, tos, labels)[..5][4] == "";
  }

  lemma TupleTellsHostAndLink(targets: seq<TargetGroup>, names: seq<string>, x: TargetInfo, y: TargetInfo)
    requires NamesOf(targets, names) && RemoteTuple(names, x) == RemoteTuple(names, y)
    ensures x.host == y.host && x.link == y.link && x.job.target == y.job.target && x.job.source == y.job.source
  {
    hide NamesOf, Tuple, BaseOf;
    TupleHead(targets, names, x.job.target, x.host, x.job.source, x.job.tos, x.link, x.labels);
    TupleHead(targets, names, y.job.target, y.host, y.job.source, y.job.tos, y.link, y.labels);
    var a, b := RemoteTuple(names, x)[..5], RemoteTuple(names, y)[..5];
    assert a[0] == b[0] && a[1] == b[1] && a[2] == b[2] && a[4] == b[4];
  }

  ghost predicate TuplesDistinct(names: seq<string>, xs: seq<TargetInfo>) {
    forall i, j :: 0 <= i < j < |xs| ==> RemoteTuple(names, xs[i]) != RemoteTuple(names, xs[j])
  }

  lemma DistinctHostsSuffice(parse: Parser, targets: seq<TargetGroup>, names: seq<string>, r: Router,
      tg: TargetGroup, resolve: Resolver)
    requires NamesOf(targets, names) && RouterOk(parse, r) && Distinct(tg.hosts)
    ensures TuplesDistinct(names, GroupTargets(tg, r, resolve))
  {
    hide NamesOf, RemoteTuple, GroupTargets, Origins, Selected, MakeInfo, SourceFor;
    var xs, links := GroupTargets(tg, r, resolve), Selected(r.links, tg.links);
    var os := Origins(tg.network, links, tg.hosts, resolve);
    ProductInOrder(tg, r, resolve);
    SelectedUnique(r.links, tg.links);
    forall i, j | 0 <= i < j < |xs| ensures RemoteTuple(names, xs[i]) != RemoteTuple(names, xs[j]) {
      assert Before(os[i], os[j]);
      assert From(tg, links, tg.hosts, resolve, xs[i], os[i]) && From(tg, links, tg.hosts, resolve, xs[j], os[j]);
      DifferentPair(tg, links, tg.hosts, resolve, xs[i], os[i], xs[j], os[j]);
      if RemoteTuple(names, xs[i]) == RemoteTuple(names, xs[j]) {
        TupleTellsHostAndLink(targets, names, xs[i], xs[j]);
      }
    }
  }

  /** A host listed twice gets the same targets twice. */
  lemma RepeatedHostRepeatsTuples(names: seq<string>, r: Router, tg: TargetGroup, resolve: Resolver, i: nat, j: nat)
    requires Buildable(tg, r, resolve) && i < j < |tg.hosts| && tg.hosts[i] == tg.hosts[j]
    ensures !TuplesDistinct(names, GroupTargets(tg, r, resolve))
  {
    hide GroupTargets, Origins, Selected, SourceFor, InOrder, RemoteTuple, MakeInfo;
    var xs, links := GroupTargets(tg, r, resolve), Selected(r.links, tg.links);
    var os := Origins(tg.network, links, tg.hosts, resolve);
    ProductInOrder(tg, r, resolve);
    assert Reachable(tg, r, resolve, tg.hosts[i]);
    var l :| l in links && SourceFor(l, !resolve(tg.hosts[i], tg.network).value.v4) != "";
    var n :| 0 <= n < |links| && links[n] == l;
    assert Wanted(tg.network, links, tg.hosts, resolve, Origin(i, n));
    assert Wanted(tg.network, links, tg.hosts, resolve, Origin(j, n));
    var a :| 0 <= a < |os| && os[a] == Origin(i, n);
    var b :| 0 <= b < |os| && os[b] == Origin(j, n);
    assert From(tg, links, tg.hosts, resolve, xs[a], os[a]) && From(tg, links, tg.hosts, resolve, xs[b], os[b]);
    assert xs[a] == xs[b] && a != b;
    assert RemoteTuple(names, xs[if a < b then a else b]) == RemoteTuple(names, xs[if a < b then b else a]);
  }

  /** The targets of a group have series of their own if and only if no host is
      listed twice. Validation does not ask for that. */
  lemma GroupTuplesDistinct(parse: Parser, targets: seq<TargetGroup>, names: seq<string>, r: Router, tg: TargetGroup,
      resolve: Resolver)
    requires NamesOf(targets, names) && RouterOk(parse, r) && Buildable(tg, r, resolve)
    ensures TuplesDistinct(names, GroupTargets(tg, r, resolve)) <==> Distinct(tg.hosts)
  {
    hide NamesOf, RouterOk, Buildable, TuplesDistinct;
    if Distinct(tg.hosts) {
      DistinctHostsSuffice(parse, targets, names, r, tg, resolve);
    } else {
      var i, j :| 0 <= i < j < |tg.hosts| && tg.hosts[i] == tg.hosts[j];
      RepeatedHostRepeatsTuples(names, r, tg, resolve, i, j);
    }
  }

  lemma DifferentPair(tg: TargetGroup, links: seq<Link>, hosts: seq<string>, resolve: Resolver,
                      x: TargetInfo, a: Origin, y: TargetInfo, b: Origin)
    requires From(tg, links, hosts, resolve, x, a) && From(tg, links, hosts, resolve, y, b) && Before(a, b)
    requires Distinct(hosts) && forall i, j :: 0 <= i < j < |links| ==> links[i].name != links[j].name
    ensures x.host != y.host || x.link != y.link
  {}
}
