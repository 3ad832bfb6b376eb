/** From a target group to the targets of a router: remote/targets.go and the
    Target of remote/scheduler.go. */
module Targets {
  import opened Machine
  import opened Wrappers
  import opened Huawei
  import opened Config

  /** What is fixed about a target: one host pinged through one link. */
  datatype TargetInfo = TargetInfo(host: string, link: string, interval: int, labels: map<string, string>, job: Job)

  class Target {
    const info: TargetInfo
    var sent: nat
    var pending: bool

    constructor (info: TargetInfo)
      ensures this.info == info && sent == 0 && !pending
    {
      this.info := info;
      sent := 0;
      pending := false;
    }

    /** Adds modulo 2^64, as the conversion of a negative number does. */
    method AddSent(n: int)
      modifies this`sent
      ensures sent == (old(sent) + n) % TWO_TO_THE_64
    {
      sent := (sent + n) % TWO_TO_THE_64;
    }
  }

  /** The counter after these calls of AddSent. */
  function SentAfter(ns: seq<int>): nat {
    if ns == [] then 0 else (SentAfter(ns[..|ns| - 1]) + ns[|ns| - 1]) % TWO_TO_THE_64
  }

  function Total(ns: seq<int>): int {
    if ns == [] then 0 else Total(ns[..|ns| - 1]) + ns[|ns| - 1]
  }

  /** After any calls of AddSent on a new target, the counter is the sum of what was
      added, modulo 2^64 - and exactly the sum while that is in range, even if the
      counter wrapped on the way. */
  lemma {:induction false} SentIsSum(ns: seq<int>)
    ensures SentAfter(ns) == Total(ns) % TWO_TO_THE_64
    ensures SentAfter(ns) == Total(ns) <==> 0 <= Total(ns) < TWO_TO_THE_64
  {
    if ns != [] {
      SentIsSum(ns[..|ns| - 1]);
    }
  }

  /** What the scheduler does to a new target's counter over its life: AddSent for
      each result, in order. */
  method CountAll(info: TargetInfo, ns: seq<int>) returns (t: Target)
    ensures fresh(t) && t.info == info && !t.pending
    ensures t.sent == SentAfter(ns) == Total(ns) % TWO_TO_THE_64
    ensures t.sent == Total(ns) <==> 0 <= Total(ns) < TWO_TO_THE_64
  {
    t := new Target(info);
    for i := 0 to |ns|
      invariant fresh(t) && t.info == info && !t.pending && t.sent == SentAfter(ns[..i])
    {
      t.AddSent(ns[i]);
      assert ns[..i + 1][..i] == ns[..i];
    }
    assert ns[..|ns|] == ns;
    SentIsSum(ns);
  }

  // ---- Resolving --------------------------------------------------------------------

  /** What the DNS resolver answers for a host and a network: some addresses. */
  type Dns = (string, string) -> Option<seq<Address>>

  type Resolver = (string, string) -> Option<Address>

  /** The first IPv4 address if one is wanted, else the first one. */
  function Preferred(ips: seq<Address>, network: string): (r: Option<Address>)
    ensures r.Some? ==> r.value in ips
    ensures r.None? <==> ips == []
    ensures r.Some? && network == "ip" && !r.value.v4 ==> forall ip :: ip in ips ==> !ip.v4
  {
    if ips == [] then None
    else if network == "ip" then
      (match FirstV4(ips) case Some(ip) => Some(ip) case None => Some(ips[0]))
    else Some(ips[0])
  }

  function FirstV4(ips: seq<Address>): (r: Option<Address>)
    ensures r.Some? ==> r.value in ips && r.value.v4
    ensures r.None? ==> forall ip :: ip in ips ==> !ip.v4
  {
    if ips == [] then None else if ips[0].v4 then Some(ips[0]) else FirstV4(ips[1..])
  }

  /** A literal decides the family; a name is looked up. */
  function Resolved(parse: Parser, dns: Dns, host: string, network: string): Option<Address> {
    match parse(host)
    case Some(ip) =>
      if (network == "ip4" && !ip.v4) || (network == "ip6" && ip.v4) then None else Some(ip)
    case None =>
      match dns(host, network)
      case Some(ips) => Preferred(ips, network)
      case None => None
  }

  /** What a host resolves to: a literal to itself, unless it is of the other family than
      the network asks for; a name to an address of the DNS answer, on network `ip` to the
      first IPv4 address if there is one and else to the first address. */
  lemma ResolvesTo(parse: Parser, dns: Dns, host: string, network: string)
    ensures var r := Resolved(parse, dns, host, network);
            match parse(host)
            case Some(ip) =>
              if (network == "ip4" && !ip.v4) || (network == "ip6" && ip.v4) then r.None? else r == Some(ip)
            case None =>
              match dns(host, network)
              case None => r.None?
              case Some(ips) =>
                if ips == [] then r.None?
                else exists i :: IsChosen(ips, network, i) && r == Some(ips[i])
  {
    if parse(host).None? && dns(host, network).Some? && dns(host, network).value != [] {
      var i := ChosenIndex(dns(host, network).value, network);
    }
  }

  /** The i-th address is the one to use. */
  ghost predicate IsChosen(ips: seq<Address>, network: string, i: int) {
    && 0 <= i < |ips|
    && if network == "ip" && exists j :: 0 <= j < |ips| && ips[j].v4
       then ips[i].v4 && forall j :: 0 <= j < i ==> !ips[j].v4
       else i == 0
  }

  lemma {:induction false} FirstV4Index(ips: seq<Address>) returns (i: nat)
    requires FirstV4(ips).Some?
    ensures i < |ips| && FirstV4(ips) == Some(ips[i]) && forall j :: 0 <= j < i ==> !ips[j].v4
  {
    if ips[0].v4 {
      i := 0;
    } else {
      i := FirstV4Index(ips[1..]);
      i := i + 1;
    }
  }

  lemma ChosenIndex(ips: seq<Address>, network: string) returns (i: nat)
    requires ips != []
    ensures IsChosen(ips, network, i) && Preferred(ips, network) == Some(ips[i])
  {
    hide FirstV4;
    if network == "ip" && FirstV4(ips).Some? {
      i := FirstV4Index(ips);
    } else {
      i := 0;
      assert FirstV4(ips).None? ==> forall j :: 0 <= j < |ips| ==> ips[j] in ips && !ips[j].v4;
    }
  }

  method Resolve(parse: Parser, dns: Dns, host: string, network: string) returns (r: Option<Address>)
    ensures r == Resolved(parse, dns, host, network)
  {
    var literal := parse(host);
    if literal.Some? {
      var ip := literal.value;
      if network == "ip4" && !ip.v4 { return None; }
      if network == "ip6" && ip.v4 { return None; }
      return Some(ip);
    }
    var found := dns(host, network);
    if found.None? || |found.value| == 0 { return None; }
    var ips := found.value;
    if network == "ip" {
      for i := 0 to |ips|
        invariant FirstV4(ips) == FirstV4(ips[i..])
      {
        if ips[i].v4 { return Some(ips[i]); }
        assert ips[i..][1..] == ips[i + 1..];
      }
    }
    return Some(ips[0]);
  }

  /** What the rest relies on: the resolver respects the network asked for. */
  ghost predicate Respects(dns: Dns) {
    forall host, network :: dns(host, network).Some? ==>
      forall ip :: ip in dns(host, network).value ==>
        (network == "ip4" ==> ip.v4) && (network == "ip6" ==> !ip.v4)
  }

  // ---- Building the targets --------------------------------------------------------------

  /** The target for `host` at `ip` through the link. */
  function MakeInfo(tg: TargetGroup, l: Link, host: string, ip: Address): TargetInfo {
    TargetInfo(host, l.name, tg.interval, tg.labels,
      Job(ip.text, !ip.v4, SourceFor(l, !ip.v4), tg.count, tg.packetInterval, tg.timeout, tg.size, tg.tos,
          l.vpnInstance))
  }

  /** The targets of one host: the links that have a source of its family, in order. */
  function HostTargets(tg: TargetGroup, links: seq<Link>, host: string, ip: Address): (r: seq<TargetInfo>)
    ensures r != [] <==> AnySource(links, !ip.v4)
  {
    if links == [] then []
    else
      var n := |links| - 1;
      HostTargets(tg, links[..n], host, ip)
      + if SourceFor(links[n], !ip.v4) != "" then [MakeInfo(tg, links[n], host, ip)] else []
  }

  /** The targets of all hosts, host by host. */
  function Expansion(tg: TargetGroup, links: seq<Link>, hosts: seq<string>, resolve: Resolver): seq<TargetInfo> {
    if hosts == [] then []
    else
      var n := |hosts| - 1;
      Expansion(tg, links, hosts[..n], resolve)
      + match resolve(hosts[n], tg.network)
        case Some(ip) => HostTargets(tg, links, hosts[n], ip)
        case None => []
  }

  function GroupTargets(tg: TargetGroup, r: Router, resolve: Resolver): seq<TargetInfo> {
    Expansion(tg, Selected(r.links, tg.links), tg.hosts, resolve)
  }

  datatype BuildError = Unresolved(host: string) | NoLink(host: string)

  /** Nothing is wrong with the host: it resolves, to a family some link serves. */
  predicate Reachable(tg: TargetGroup, r: Router, resolve: Resolver, host: string) {
    && resolve(host, tg.network).Some?
    && AnySource(Selected(r.links, tg.links), !resolve(host, tg.network).value.v4)
  }

  ghost predicate Buildable(tg: TargetGroup, r: Router, resolve: Resolver) {
    forall i :: 0 <= i < |tg.hosts| ==> Reachable(tg, r, resolve, tg.hosts[i])
  }

  /** The error is about the first host that cannot be pinged, and says why. */
  ghost predicate Explains(e: BuildError, tg: TargetGroup, r: Router, resolve: Resolver) {
    exists i :: 0 <= i < |tg.hosts| && e.host == tg.hosts[i]
                && !Reachable(tg, r, resolve, tg.hosts[i])
                && (e.Unresolved? <==> resolve(tg.hosts[i], tg.network).None?)
                && forall k :: 0 <= k < i ==> Reachable(tg, r, resolve, tg.hosts[k])
  }

  ghost predicate Describe(targets: seq<Target>, infos: seq<TargetInfo>) {
    |targets| == |infos| && forall k :: 0 <= k < |targets| ==> targets[k].info == infos[k]
  }

  predicate Distinct<T(==)>(xs: seq<T>) { forall i, j :: 0 <= i < j < |xs| ==> xs[i] != xs[j] }

  ghost predicate Pristine(targets: seq<Target>)
    reads targets
  {
    forall k :: 0 <= k < |targets| ==> targets[k].sent == 0 && !targets[k].pending
  }

  lemma NoLinks(tg: TargetGroup, host: string, ip: Address)
    ensures HostTargets(tg, [], host, ip) == []
  {}

  lemma OneMoreLink(tg: TargetGroup, links: seq<Link>, j: nat, host: string, ip: Address)
    requires j < |links|
    ensures HostTargets(tg, links[..j + 1], host, ip)
         == HostTargets(tg, links[..j], host, ip)
            + if SourceFor(links[j], !ip.v4) != "" then [MakeInfo(tg, links[j], host, ip)] else []
  {
    assert links[..j + 1][..j] == links[..j];
  }

  /** The inner loop: the targets of one host. */
  method BuildHost(tg: TargetGroup, links: seq<Link>, host: string, ip: Address) returns (targets: seq<Target>)
    ensures Describe(targets, HostTargets(tg, links, host, ip))
    ensures Distinct(targets) && Pristine(targets) && forall t :: t in targets ==> fresh(t)
  {
    hide HostTargets, AnySource;
    var v6 := !ip.v4;
    targets := [];
    NoLinks(tg, host, ip);
    for j := 0 to |links|
      invariant Describe(targets, HostTargets(tg, links[..j], host, ip))
      invariant Distinct(targets) && Pristine(targets) && forall t :: t in targets ==> fresh(t)
    {
      var l := links[j];
      OneMoreLink(tg, links, j, host, ip);
      var src := if v6 then l.source6 else l.source;
      if src == "" { continue; }
      var t := new Target(TargetInfo(host, l.name, tg.interval, tg.labels,
        Job(ip.text, v6, src, tg.count, tg.packetInterval, tg.timeout, tg.size, tg.tos, l.vpnInstance)));
      targets := targets + [t];
    }
    assert links[..|links|] == links;
  }

  lemma DistinctAppend<T>(a: seq<T>, b: seq<T>)
    requires Distinct(a) && Distinct(b) && forall x :: x in b ==> x !in a
    ensures Distinct(a + b)
  {
    forall i, j | 0 <= i < j < |a + b| ensures (a + b)[i] != (a + b)[j] {
      if |a| <= i {
        assert b[i - |a|] != b[j - |a|];
      } else if |a| <= j {
        assert a[i] in a && b[j - |a|] in b;
      }
    }
  }

  lemma EmptyExpansion(tg: TargetGroup, links: seq<Link>, resolve: Resolver)
    ensures Describe([], Expansion(tg, links, [], resolve))
  {}

  lemma NoneAdded(added: seq<Target>, tg: TargetGroup, links: seq<Link>, host: string, ip: Address)
    requires Describe(added, HostTargets(tg, links, host, ip))
    ensures added == [] <==> !AnySource(links, !ip.v4)
  {}

  lemma ExpansionGrows(targets: seq<Target>, added: seq<Target>, tg: TargetGroup, links: seq<Link>,
                       hosts: seq<string>, i: nat, resolve: Resolver)
    requires i < |hosts| && resolve(hosts[i], tg.network).Some?
    requires Describe(targets, Expansion(tg, links, hosts[..i], resolve))
    requires Describe(added, HostTargets(tg, links, hosts[i], resolve(hosts[i], tg.network).value))
    ensures Describe(targets + added, Expansion(tg, links, hosts[..i + 1], resolve))
  {
    hide HostTargets;
    assert hosts[..i + 1][..i] == hosts[..i];
  }

  /** One new target for each host and each link with a source of the host's
      family, hosts first; or an error for the first host that has none. */
  method BuildTargets(tg: TargetGroup, r: Router, resolve: Resolver) returns (res: Result<seq<Target>, BuildError>)
    ensures res.Ok? <==> Buildable(tg, r, resolve)
    ensures res.Ok? ==> Describe(res.value, GroupTargets(tg, r, resolve))
    ensures res.Ok? ==> Distinct(res.value) && Pristine(res.value) && forall t :: t in res.value ==> fresh(t)
    ensures res.Err? ==> Explains(res.error, tg, r, resolve)
  {
    hide Expansion, HostTargets, AnySource, Selected, MakeInfo, Describe;
    var links := SelectLinks(r, tg.links);
    var targets: seq<Target> := [];
    EmptyExpansion(tg, links, resolve);
    for i := 0 to |tg.hosts|
      invariant Describe(targets, Expansion(tg, links, tg.hosts[..i], resolve))
      invariant Distinct(targets) && Pristine(targets) && forall t :: t in targets ==> fresh(t)
      invariant forall k :: 0 <= k < i ==> Reachable(tg, r, resolve, tg.hosts[k])
    {
      var host := tg.hosts[i];
      var found := resolve(host, tg.network);
      if found.None? { return Err(Unresolved(host)); }
      var added := BuildHost(tg, links, host, found.value);
      NoneAdded(added, tg, links, host, found.value);
      if |added| == 0 { return Err(NoLink(host)); }
      ExpansionGrows(targets, added, tg, links, tg.hosts, i, resolve);
      DistinctAppend(targets, added);
      targets := targets + added;
    }
    assert tg.hosts[..|tg.hosts|] == tg.hosts;
    return Ok(targets);
  }

  // ---- The product of hosts and links -----------------------------------------------------

  /** Which host and which link each target comes from. */
  datatype Origin = Origin(host: nat, link: nat)

  predicate Before(a: Origin, b: Origin) { a.host < b.host || (a.host == b.host && a.link < b.link) }

  function HostOrigins(links: seq<Link>, v6: bool, i: nat): seq<Origin> {
    if links == [] then []
    else
      var n := |links| - 1;
      HostOrigins(links[..n], v6, i) + if SourceFor(links[n], v6) != "" then [Origin(i, n)] else []
  }

  function Origins(network: string, links: seq<Link>, hosts: seq<string>, resolve: Resolver): seq<Origin> {
    if hosts == [] then []
    else
      var n := |hosts| - 1;
      Origins(network, links, hosts[..n], resolve)
      + match resolve(hosts[n], network)
        case Some(ip) => HostOrigins(links, !ip.v4, n)
        case None => []
  }

  predicate InOrder(os: seq<Origin>) { forall i, j :: 0 <= i < j < |os| ==> Before(os[i], os[j]) }

  /** A pair that is to be pinged. */
  predicate Wanted(network: string, links: seq<Link>, hosts: seq<string>, resolve: Resolver, o: Origin) {
    && o.host < |hosts| && o.link < |links|
    && resolve(hosts[o.host], network).Some?
    && SourceFor(links[o.link], !resolve(hosts[o.host], network).value.v4) != ""
  }

  lemma {:induction false} HostOriginsExact(links: seq<Link>, v6: bool, i: nat)
    ensures InOrder(HostOrigins(links, v6, i))
    ensures forall o :: o in HostOrigins(links, v6, i) <==>
              o.host == i && o.link < |links| && SourceFor(links[o.link], v6) != ""
  {
    hide SourceFor;
    if links != [] {
      var n := |links| - 1;
      var before, last := HostOrigins(links[..n], v6, i), Origin(i, n);
      HostOriginsExact(links[..n], v6, i);
      forall o | o in before ensures Before(o, last) && links[..n][o.link] == links[o.link] {}
      OneMoreOrigin(before, last);
      assert forall j :: 0 <= j < n ==> links[..n][j] == links[j];
      assert HostOrigins(links, v6, i) == before + if SourceFor(links[n], v6) != "" then [last] else [];
    }
  }

  lemma OneMoreOrigin(os: seq<Origin>, last: Origin)
    requires InOrder(os) && forall o :: o in os ==> Before(o, last)
    ensures InOrder(os + [last]) && os + [] == os
  {}

  lemma {:induction false} OriginsExact(network: string, links: seq<Link>, hosts: seq<string>, resolve: Resolver)
    ensures InOrder(Origins(network, links, hosts, resolve))
    ensures forall o :: o in Origins(network, links, hosts, resolve) <==> Wanted(network, links, hosts, resolve, o)
  {
    hide HostOrigins, SourceFor;
    if hosts != [] {
      var n := |hosts| - 1;
      OriginsExact(network, links, hosts[..n], resolve);
      match resolve(hosts[n], network)
      case None =>
        OldOrigins(network, links, hosts, resolve);
      case Some(ip) =>
        HostOriginsExact(links, !ip.v4, n);
        OldOrigins(network, links, hosts, resolve);
        InOrderAppend(Origins(network, links, hosts[..n], resolve), HostOrigins(links, !ip.v4, n), n);
    }
  }

  lemma OldOrigins(network: string, links: seq<Link>, hosts: seq<string>, resolve: Resolver)
    requires hosts != []
    ensures forall o: Origin :: o.host < |hosts| - 1 ==>
              (Wanted(network, links, hosts, resolve, o) <==> Wanted(network, links, hosts[..|hosts| - 1], resolve, o))
    ensures forall o :: Wanted(network, links, hosts[..|hosts| - 1], resolve, o) ==> o.host < |hosts| - 1
  {}

  lemma InOrderAppend(a: seq<Origin>, b: seq<Origin>, n: nat)
    requires InOrder(a) && InOrder(b)
    requires forall o :: o in a ==> o.host < n
    requires forall o :: o in b ==> o.host == n
    ensures InOrder(a + b)
  {
    forall i, j | 0 <= i < j < |a + b| ensures Before((a + b)[i], (a + b)[j]) {
      if |a| <= i {
        assert Before(b[i - |a|], b[j - |a|]);
      } else if |a| <= j {
        assert a[i] in a && b[j - |a|] in b;
      }
    }
  }

  /** The target that a pair gives. */
  predicate From(tg: TargetGroup, links: seq<Link>, hosts: seq<string>, resolve: Resolver, x: TargetInfo, o: Origin) {
    && o.host < |hosts| && o.link < |links|
    && resolve(hosts[o.host], tg.network).Some?
    && x == MakeInfo(tg, links[o.link], hosts[o.host], resolve(hosts[o.host], tg.network).value)
  }

  /** Target by target, the origins tell which link of the host's was used. */
  predicate MadeFrom(tg: TargetGroup, links: seq<Link>, host: string, ip: Address, i: nat, xs: seq<TargetInfo>,
      os: seq<Origin>) {
    |xs| == |os| && forall k :: 0 <= k < |os| ==>
      os[k].host == i && os[k].link < |links| && xs[k] == MakeInfo(tg, links[os[k].link], host, ip)
  }

  lemma MoreLinks(tg: TargetGroup, links: seq<Link>, n: nat, host: string, ip: Address, i: nat, xs: seq<TargetInfo>,
      os: seq<Origin>)
    requires n <= |links| && MadeFrom(tg, links[..n], host, ip, i, xs, os)
    ensures MadeFrom(tg, links, host, ip, i, xs, os)
  {
    hide MakeInfo;
    forall k | 0 <= k < |os|
      ensures os[k].host == i && os[k].link < |links| && xs[k] == MakeInfo(tg, links[os[k].link], host, ip)
    {
      assert links[..n][os[k].link] == links[os[k].link];
    }
  }

  lemma {:induction false} HostAligned(tg: TargetGroup, links: seq<Link>, host: string, ip: Address, i: nat)
    ensures MadeFrom(tg, links, host, ip, i, HostTargets(tg, links, host, ip), HostOrigins(links, !ip.v4, i))
  {
    hide MakeInfo;
    if links != [] {
      var n := |links| - 1;
      HostAligned(tg, links[..n], host, ip, i);
      MoreLinks(tg, links, n, host, ip, i, HostTargets(tg, links[..n], host, ip), HostOrigins(links[..n], !ip.v4, i));
    }
  }

  lemma {:induction false} Aligned(tg: TargetGroup, links: seq<Link>, hosts: seq<string>, resolve: Resolver)
    ensures var xs, os := Expansion(tg, links, hosts, resolve), Origins(tg.network, links, hosts, resolve);
            |xs| == |os| && forall k :: 0 <= k < |xs| ==> From(tg, links, hosts, resolve, xs[k], os[k])
  {
    hide MakeInfo, HostTargets, HostOrigins;
    if hosts != [] {
      var n := |hosts| - 1;
      Aligned(tg, links, hosts[..n], resolve);
      match resolve(hosts[n], tg.network)
      case None =>
      case Some(ip) => HostAligned(tg, links, hosts[n], ip, n);
    }
  }

  /** Where every field of a target comes from: its host and its link, the address the
      host resolves to, and the group. */
  lemma FieldsOfTarget(tg: TargetGroup, r: Router, resolve: Resolver, k: nat)
    requires k < |GroupTargets(tg, r, resolve)|
    ensures var links := Selected(r.links, tg.links);
            var os := Origins(tg.network, links, tg.hosts, resolve);
            && k < |os| && os[k].host < |tg.hosts| && os[k].link < |links|
            && resolve(tg.hosts[os[k].host], tg.network).Some?
            && var x, l := GroupTargets(tg, r, resolve)[k], links[os[k].link];
               var ip := resolve(tg.hosts[os[k].host], tg.network).value;
               && x.host == tg.hosts[os[k].host] && x.link == l.name
               && x.interval == tg.interval && x.labels == tg.labels
               && x.job.target == ip.text && x.job.ipv6 == !ip.v4
               && x.job.source == (if ip.v4 then l.source else l.source6) && x.job.source != ""
               && x.job.count == tg.count && x.job.packetInterval == tg.packetInterval
               && x.job.timeout == tg.timeout && x.job.size == tg.size && x.job.tos == tg.tos
               && x.job.vpnInstance == l.vpnInstance
  {
    hide GroupTargets, Origins, InOrder, Selected;
    ProductInOrder(tg, r, resolve);
    var os := Origins(tg.network, Selected(r.links, tg.links), tg.hosts, resolve);
    assert os[k] in os;
  }

  /** The targets of a group are exactly the pairs of a host and an eligible link
      with a source of the host's family: each once, hosts in order, and for each
      host the links in router order. */
  lemma ProductInOrder(tg: TargetGroup, r: Router, resolve: Resolver)
    ensures var xs, links := GroupTargets(tg, r, resolve), Selected(r.links, tg.links);
            var os := Origins(tg.network, links, tg.hosts, resolve);
            && |xs| == |os| && InOrder(os)
            && (forall k :: 0 <= k < |xs| ==> From(tg, links, tg.hosts, resolve, xs[k], os[k]))
            && (forall o :: o in os <==> Wanted(tg.network, links, tg.hosts, resolve, o))
  {
    hide From, Wanted, InOrder;
    OriginsExact(tg.network, Selected(r.links, tg.links), tg.hosts, resolve);
    Aligned(tg, Selected(r.links, tg.links), tg.hosts, resolve);
  }

  /** Every host of a group that could be built has at least one target. */
  lemma EveryHostHasTarget(tg: TargetGroup, r: Router, resolve: Resolver, i: nat)
    requires Buildable(tg, r, resolve) && i < |tg.hosts|
    ensures exists k :: 0 <= k < |GroupTargets(tg, r, resolve)| && GroupTargets(tg, r, resolve)[k].host == tg.hosts[i]
  {
    hide Expansion, Origins, InOrder, Selected;
    ProductInOrder(tg, r, resolve);
    var links := Selected(r.links, tg.links);
    assert Reachable(tg, r, resolve, tg.hosts[i]);
    var l :| l in links && SourceFor(l, !resolve(tg.hosts[i], tg.network).value.v4) != "";
    var j :| 0 <= j < |links| && links[j] == l;
    var os := Origins(tg.network, links, tg.hosts, resolve);
    assert Wanted(tg.network, links, tg.hosts, resolve, Origin(i, j));
    var k :| 0 <= k < |os| && os[k] == Origin(i, j);
    assert From(tg, links, tg.hosts, resolve, GroupTargets(tg, r, resolve)[k], os[k]);
  }
}
