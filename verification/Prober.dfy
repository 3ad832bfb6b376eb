/** The prober's pingers and schedulers: prepare, start, startRemote and stop of
    main.go. */
module Prober {
  import opened Wrappers
  import opened Huawei
  import opened Config
  import opened Targets

  // ---- What prepare makes ---------------------------------------------------------------

  /** A local pinger that has been set up. */
  datatype Probe = Probe(host: string, address: Address, interval: int, network: string, size: int,
                         source: string, tos: Byte, privileged: bool, labels: map<string, string>)

  /** The scheduler of one router, as far as main sees it. */
  class RouterScheduler {
    const router: string
    const sessions: int
    const targets: seq<Target>
    var starts: nat
    var running: bool

    constructor (router: string, sessions: int, targets: seq<Target>)
      ensures this.router == router && this.sessions == sessions && this.targets == targets
      ensures starts == 0 && !running
    {
      this.router, this.sessions, this.targets, starts, running := router, sessions, targets, 0, false;
    }

    method Start()
      modifies this
      ensures starts == old(starts) + 1 && running
    {
      starts, running := starts + 1, true;
    }

    /** Stopping what was never started, or is stopped, changes nothing. */
    method Stop()
      modifies this
      ensures starts == old(starts) && !running
    {
      running := false;
    }
  }

  /** The command line. */
  datatype Cli = Cli(hosts: seq<string>, interval: int, privileged: bool, size: int, tos: Byte)

  /** What prepare meets outside: the resolver for router targets, that of the local
      pingers, and which routers' credential files can be read. */
  datatype Env = Env(resolve: Resolver, ping: Resolver, credentials: Router -> bool)

  datatype PrepareError =
    | CliUnresolved(host: string)
    | BadSize(size: int)
    | NotBuilt(router: string, be: BuildError)
    | LocalUnresolved(host: string)
    | NoCredentials(router: string)

  function CliProbe(cli: Cli, host: string, address: Address): Probe {
    Probe(host, address, cli.interval, "ip", cli.size, "", cli.tos, cli.privileged, map[])
  }

  /** Router groups are pinged locally too, at their local interval. */
  function LocalInterval(tg: TargetGroup): int { if tg.router != "" then tg.localInterval else tg.interval }

  function GroupProbe(tg: TargetGroup, host: string, address: Address): Probe {
    Probe(host, address, LocalInterval(tg), tg.network, tg.size, tg.source, tg.tos, tg.protocol == "icmp", tg.labels)
  }

  predicate Found(ping: Resolver, network: string, hosts: seq<string>) {
    forall i :: 0 <= i < |hosts| ==> ping(hosts[i], network).Some?
  }

  function CliProbes(cli: Cli, env: Env): seq<Probe>
    requires Found(env.ping, "ip", cli.hosts)
  {
    seq(|cli.hosts|, i requires 0 <= i < |cli.hosts| => CliProbe(cli, cli.hosts[i], env.ping(cli.hosts[i], "ip").value))
  }

  function GroupProbes(tg: TargetGroup, env: Env): seq<Probe>
    requires Found(env.ping, tg.network, tg.hosts)
  {
    seq(|tg.hosts|, i requires 0 <= i < |tg.hosts| => GroupProbe(tg, tg.hosts[i],
        env.ping(tg.hosts[i], tg.network).value))
  }

  /** What a router group is expanded to. */
  function GroupInfos(routers: seq<Router>, tg: TargetGroup, env: Env): seq<TargetInfo> {
    if tg.router == "" then [] else GroupTargets(tg, NamedRouter(routers, tg.router), env.resolve)
  }

  /** The targets of all the groups of one router, in the order of the groups. */
  function RouterInfos(routers: seq<Router>, groups: seq<TargetGroup>, name: string, env: Env): seq<TargetInfo> {
    if groups == [] then []
    else
      var n := |groups| - 1;
      RouterInfos(routers, groups[..n], name, env)
      + if groups[n].router == name && name != "" then GroupInfos(routers, groups[n], env) else []
  }

  function AllGroupProbes(groups: seq<TargetGroup>, env: Env): seq<Probe>
    requires forall k :: 0 <= k < |groups| ==> Found(env.ping, groups[k].network, groups[k].hosts)
  {
    if groups == [] then []
    else AllGroupProbes(groups[..|groups| - 1], env) + GroupProbes(groups[|groups| - 1], env)
  }

  // ---- When prepare succeeds --------------------------------------------------------------

  ghost predicate GroupReady(routers: seq<Router>, tg: TargetGroup, env: Env) {
    && 24 <= tg.size <= 65535
    && (tg.router != "" ==> Buildable(tg, NamedRouter(routers, tg.router), env.resolve))
    && Found(env.ping, tg.network, tg.hosts)
  }

  /** The size of a packet is checked for every group, with or without a router. */
  lemma SizeChecked(routers: seq<Router>, tg: TargetGroup, env: Env, n: int)
    requires GroupReady(routers, tg, env)
    ensures GroupReady(routers, tg.(size := n), env) <==> 24 <= n <= 65535
  {
    forall i | 0 <= i < |tg.hosts|
      ensures var r := NamedRouter(routers, tg.router);
              Reachable(tg.(size := n), r, env.resolve, tg.hosts[i]) <==> Reachable(tg, r, env.resolve, tg.hosts[i])
    {
    }
  }

  ghost predicate GroupsReady(routers: seq<Router>, groups: seq<TargetGroup>, env: Env) {
    forall k :: 0 <= k < |groups| ==> GroupReady(routers, groups[k], env)
  }

  ghost predicate RouterReady(c: Config, r: Router, env: Env) {
    RouterInfos(c.routers, c.targets, r.name, env) != [] ==> env.credentials(r)
  }

  ghost predicate Preparable(c: Config, cli: Cli, env: Env) {
    && Found(env.ping, "ip", cli.hosts)
    && GroupsReady(c.routers, c.targets, env)
    && forall i :: 0 <= i < |c.routers| ==> RouterReady(c, c.routers[i], env)
  }

  // ---- Why it fails --------------------------------------------------------------------------

  /** The first host of the list that does not resolve. */
  ghost predicate FirstUnresolved(ping: Resolver, network: string, hosts: seq<string>, host: string) {
    exists i :: 0 <= i < |hosts| && host == hosts[i] && ping(host, network).None? && Found(ping, network, hosts[..i])
  }

  /** The first thing that is wrong with the group, in the order of the checks. */
  ghost predicate GroupProblem(routers: seq<Router>, tg: TargetGroup, env: Env, e: PrepareError) {
    match e
    case BadSize(size) => size == tg.size && !(24 <= size <= 65535)
    case NotBuilt(name, be) =>
      24 <= tg.size <= 65535 && tg.router != "" && name == tg.router
      && Explains(be, tg, NamedRouter(routers, tg.router), env.resolve)
    case LocalUnresolved(host) =>
      24 <= tg.size <= 65535
      && (tg.router != "" ==> Buildable(tg, NamedRouter(routers, tg.router), env.resolve))
      && FirstUnresolved(env.ping, tg.network, tg.hosts, host)
    case _ => false
  }

  ghost predicate GroupsProblem(routers: seq<Router>, groups: seq<TargetGroup>, env: Env, e: PrepareError) {
    exists k :: 0 <= k < |groups| && GroupsReady(routers, groups[..k], env) && GroupProblem(routers, groups[k], env, e)
  }

  ghost predicate NoCredentialsFor(c: Config, env: Env, name: string) {
    exists i :: 0 <= i < |c.routers| && c.routers[i].name == name && !RouterReady(c, c.routers[i], env)
                && forall k :: 0 <= k < i ==> RouterReady(c, c.routers[k], env)
  }

  /** The error is about the first thing that is wrong: on the command line, in the
      groups, or with the credentials. */
  ghost predicate FirstProblem(c: Config, cli: Cli, env: Env, e: PrepareError) {
    match e
    case CliUnresolved(host) => FirstUnresolved(env.ping, "ip", cli.hosts, host)
    case NoCredentials(name) =>
      Found(env.ping, "ip", cli.hosts) && GroupsReady(c.routers, c.targets, env) && NoCredentialsFor(c, env, name)
    case _ => Found(env.ping, "ip", cli.hosts) && GroupsProblem(c.routers, c.targets, env, e)
  }

  // ---- The longest local interval ------------------------------------------------------------

  /** The number is the greatest of the command line's interval, those of the groups
      without a router, and the local intervals of the groups with one. */
  ghost predicate IsLongest(m: int, interval: int, groups: seq<TargetGroup>) {
    && m >= interval
    && (forall k :: 0 <= k < |groups| && groups[k].router == "" ==> m >= groups[k].interval)
    && (forall k :: 0 <= k < |groups| && groups[k].router != "" ==> m >= groups[k].localInterval)
    && (m == interval
        || (exists k :: 0 <= k < |groups| && groups[k].router == "" && m == groups[k].interval)
        || (exists k :: 0 <= k < |groups| && groups[k].router != "" && m == groups[k].localInterval))
  }

  /** The same group, but for the interval of its router targets. */
  predicate DiffersInInterval(a: TargetGroup, b: TargetGroup) {
    b == a.(interval := b.interval) && (a.router == "" ==> a.interval == b.interval)
  }

  /** There is one such number, and the intervals of router targets have no part in it. */
  lemma LongestIsLocal(m: int, n: int, interval: int, groups: seq<TargetGroup>, others: seq<TargetGroup>)
    requires |groups| == |others|
    requires forall k :: 0 <= k < |groups| ==> DiffersInInterval(groups[k], others[k])
    ensures IsLongest(m, interval, groups) <==> IsLongest(m, interval, others)
    ensures IsLongest(m, interval, groups) && IsLongest(n, interval, others) ==> m == n
  {
    forall k | 0 <= k < |groups|
      ensures groups[k].router == others[k].router && groups[k].localInterval == others[k].localInterval
      ensures groups[k].router == "" ==> groups[k].interval == others[k].interval
    {
      assert DiffersInInterval(groups[k], others[k]);
    }
  }

  lemma LongerOne(m: int, interval: int, groups: seq<TargetGroup>, n: nat)
    requires n < |groups| && IsLongest(m, interval, groups[..n])
    ensures IsLongest(if LocalInterval(groups[n]) > m then LocalInterval(groups[n]) else m, interval, groups[..n + 1])
  {
    assert groups[..n + 1][n] == groups[n];
    assert forall k :: 0 <= k < n ==> groups[..n + 1][k] == groups[..n][k];
  }

  // ---- Targets by router, while the groups are expanded ----------------------------------------

  type ByRouter = map<string, seq<Target>>

  function TargetsAt(m: ByRouter, name: string): seq<Target> { if name in m then m[name] else [] }

  /** The map holds the targets of the groups so far, each under its router. */
  ghost predicate Assigned(m: ByRouter, routers: seq<Router>, groups: seq<TargetGroup>, env: Env) {
    forall name :: Describe(TargetsAt(m, name), RouterInfos(routers, groups, name, env))
  }

  /** No target object is held twice. */
  ghost predicate Unshared(m: ByRouter) {
    && (forall a :: a in m ==> Distinct(m[a]))
    && (forall a, b, t :: a in m && b in m && a != b && t in m[a] ==> t !in m[b])
  }

  lemma AssignMore(m: ByRouter, routers: seq<Router>, groups: seq<TargetGroup>, n: nat, env: Env, added: seq<Target>)
    requires n < |groups| && Assigned(m, routers, groups[..n], env) && groups[n].router != ""
    requires Describe(added, GroupInfos(routers, groups[n], env))
    ensures var name := groups[n].router;
            Assigned(m[name := TargetsAt(m, name) + added], routers, groups[..n + 1], env)
  {
    hide GroupInfos;
    var name := groups[n].router;
    var m' := m[name := TargetsAt(m, name) + added];
    assert groups[..n + 1][..n] == groups[..n];
    forall other ensures Describe(TargetsAt(m', other), RouterInfos(routers, groups[..n + 1], other, env)) {
      assert Describe(TargetsAt(m, other), RouterInfos(routers, groups[..n], other, env));
    }
  }

  lemma AssignNone(m: ByRouter, routers: seq<Router>, groups: seq<TargetGroup>, n: nat, env: Env)
    requires n < |groups| && Assigned(m, routers, groups[..n], env) && groups[n].router == ""
    ensures Assigned(m, routers, groups[..n + 1], env)
  {
    hide GroupInfos;
    assert groups[..n + 1][..n] == groups[..n];
    forall other ensures Describe(TargetsAt(m, other), RouterInfos(routers, groups[..n + 1], other, env)) {
      assert Describe(TargetsAt(m, other), RouterInfos(routers, groups[..n], other, env));
    }
  }

  lemma UnsharedMore(m: ByRouter, name: string, added: seq<Target>)
    requires Unshared(m) && Distinct(added)
    requires forall a, t :: a in m && t in m[a] ==> t !in added
    ensures Unshared(m[name := TargetsAt(m, name) + added])
  {
    assert forall t :: t in TargetsAt(m, name) ==> t !in added;
    DistinctAppend(TargetsAt(m, name), added);
  }

  // ---- The loops of prepare ------------------------------------------------------------------

  method ProbesOfCli(cli: Cli, env: Env) returns (r: Result<seq<Probe>, PrepareError>)
    ensures r.Ok? <==> Found(env.ping, "ip", cli.hosts)
    ensures r.Ok? ==> r.value == CliProbes(cli, env)
    ensures r.Err? ==> r.error.CliUnresolved? && FirstUnresolved(env.ping, "ip", cli.hosts, r.error.host)
  {
    var probes: seq<Probe> := [];
    for i := 0 to |cli.hosts|
      invariant forall k :: 0 <= k < i ==> env.ping(cli.hosts[k], "ip").Some?
      invariant |probes| == i
      invariant forall k :: 0 <= k < i ==> probes[k] == CliProbe(cli, cli.hosts[k], env.ping(cli.hosts[k], "ip").value)
    {
      var found := env.ping(cli.hosts[i], "ip");
      assert forall k :: 0 <= k < i ==> cli.hosts[..i][k] == cli.hosts[k];
      if found.None? { return Err(CliUnresolved(cli.hosts[i])); }
      probes := probes + [Probe(cli.hosts[i], found.value, cli.interval, "ip", cli.size, "", cli.tos, cli.privileged,
          map[])];
    }
    return Ok(probes);
  }

  method ProbesOfGroup(tg: TargetGroup, localInterval: int, env: Env) returns (r: Result<seq<Probe>, PrepareError>)
    requires localInterval == LocalInterval(tg)
    ensures r.Ok? <==> Found(env.ping, tg.network, tg.hosts)
    ensures r.Ok? ==> r.value == GroupProbes(tg, env)
    ensures r.Err? ==> r.error.LocalUnresolved? && FirstUnresolved(env.ping, tg.network, tg.hosts, r.error.host)
  {
    var probes: seq<Probe> := [];
    for i := 0 to |tg.hosts|
      invariant forall k :: 0 <= k < i ==> env.ping(tg.hosts[k], tg.network).Some?
      invariant |probes| == i
      invariant forall k :: 0 <= k < i ==> probes[k] == GroupProbe(tg, tg.hosts[k], env.ping(tg.hosts[k],
          tg.network).value)
    {
      var found := env.ping(tg.hosts[i], tg.network);
      assert forall k :: 0 <= k < i ==> tg.hosts[..i][k] == tg.hosts[k];
      if found.None? { return Err(LocalUnresolved(tg.hosts[i])); }
      var privileged := false;
      if tg.protocol == "icmp" {
        privileged := true;
      }
      probes := probes
        + [Probe(tg.hosts[i], found.value, localInterval, tg.network, tg.size, tg.source, tg.tos, privileged,
            tg.labels)];
    }
    return Ok(probes);
  }

  ghost predicate AllPristine(m: ByRouter)
    reads set a, t | a in m && t in m[a] :: t
  {
    forall a, t :: a in m && t in m[a] ==> t.sent == 0 && !t.pending
  }

  /** The body of that loop for a group with a router: its targets join those of
      the router. */
  method ExpandGroup(parse: Parser, c: Config, k: nat, remote: ByRouter, env: Env)
      returns (r: Result<ByRouter, PrepareError>)
    requires WellFormed(parse, c) && k < |c.targets| && c.targets[k].router != ""
    requires Assigned(remote, c.routers, c.targets[..k], env) && Unshared(remote) && AllPristine(remote)
    ensures r.Ok? <==> Buildable(c.targets[k], NamedRouter(c.routers, c.targets[k].router), env.resolve)
    ensures r.Ok? ==> Assigned(r.value, c.routers, c.targets[..k + 1], env) && Unshared(r.value) && AllPristine(r.value)
    ensures r.Ok? ==> forall a, t :: a in r.value && t in r.value[a] ==> fresh(t) || (a in remote && t in remote[a])
    ensures r.Err? ==> r.error.NotBuilt? && r.error.router == c.targets[k].router
                       && Explains(r.error.be, c.targets[k], NamedRouter(c.routers, c.targets[k].router), env.resolve)
  {
    hide WellFormed, Assigned, Buildable, Describe, GroupTargets, RouterOk, RoutedGroupOk, Unshared, IsRouterOf;
    hide Explains;
    var tg := c.targets[k];
    GroupHasRouter(parse, c, tg);
    var router, _ := FindRouter(c, tg.router);
    var built := BuildTargets(tg, router, env.resolve);
    if built.Err? { return Err(NotBuilt(router.name, built.error)); }
    BuiltIsGroup(c.routers, tg, env, built.value);
    AssignMore(remote, c.routers, c.targets, k, env, built.value);
    UnsharedMore(remote, router.name, built.value);
    return Ok(remote[router.name := TargetsAt(remote, router.name) + built.value]);
  }

  /** The loop over the target groups. */
  method PrepareGroups(parse: Parser, c: Config, interval: int, env: Env)
    returns (err: Option<PrepareError>, probes: seq<Probe>, remote: ByRouter, maxInterval: int)
    requires WellFormed(parse, c)
    ensures err.None? <==> GroupsReady(c.routers, c.targets, env)
    ensures err.None? ==> probes == AllGroupProbes(c.targets, env)
    ensures err.None? ==> Assigned(remote, c.routers, c.targets, env) && Unshared(remote) && AllPristine(remote)
    ensures err.None? ==> forall a, t :: a in remote && t in remote[a] ==> fresh(t)
    ensures err.None? ==> IsLongest(maxInterval, interval, c.targets)
    ensures err.Some? ==> GroupsProblem(c.routers, c.targets, env, err.value)
                          && !err.value.CliUnresolved? && !err.value.NoCredentials?
  {
    hide WellFormed, GroupInfos, Buildable, AllGroupProbes, GroupProbes, Found, Assigned, Unshared, IsLongest;
    hide Explains, FirstUnresolved;
    probes, remote, maxInterval := [], map[], interval;
    Nothing(c.routers, interval, env);
    for k := 0 to |c.targets|
      invariant GroupsReady(c.routers, c.targets[..k], env)
      invariant probes == AllGroupProbes(c.targets[..k], env)
      invariant Assigned(remote, c.routers, c.targets[..k], env) && Unshared(remote) && AllPristine(remote)
      invariant forall a, t :: a in remote && t in remote[a] ==> fresh(t)
      invariant IsLongest(maxInterval, interval, c.targets[..k])
    {
      var tg := c.targets[k];
      if tg.size < 24 || tg.size > 65535 { return Some(BadSize(tg.size)), probes, remote, maxInterval; }
      var localInterval := tg.interval;
      if tg.router != "" {
        var expanded := ExpandGroup(parse, c, k, remote, env);
        if expanded.Err? { return Some(expanded.error), probes, remote, maxInterval; }
        remote := expanded.value;
        localInterval := tg.localInterval;
      } else {
        AssignNone(remote, c.routers, c.targets, k, env);
      }
      LongerOne(maxInterval, interval, c.targets, k);
      if localInterval > maxInterval {
        maxInterval := localInterval;
      }
      var more := ProbesOfGroup(tg, localInterval, env);
      if more.Err? { return Some(more.error), probes, remote, maxInterval; }
      MoreReady(c.routers, c.targets, k, env);
      probes := probes + more.value;
    }
    assert c.targets[..|c.targets|] == c.targets;
    return None, probes, remote, maxInterval;
  }

  lemma Nothing(routers: seq<Router>, interval: int, env: Env)
    ensures GroupsReady(routers, [], env) && AllGroupProbes([], env) == [] && Assigned(map[], routers, [], env)
    ensures Unshared(map[])
    ensures IsLongest(interval, interval, [])
  {}

  lemma BuiltIsGroup(routers: seq<Router>, tg: TargetGroup, env: Env, built: seq<Target>)
    requires tg.router != "" && Describe(built, GroupTargets(tg, NamedRouter(routers, tg.router), env.resolve))
    ensures Describe(built, GroupInfos(routers, tg, env))
  {}

  lemma MoreReady(routers: seq<Router>, groups: seq<TargetGroup>, n: nat, env: Env)
    requires n < |groups| && GroupsReady(routers, groups[..n], env) && GroupReady(routers, groups[n], env)
    ensures GroupsReady(routers, groups[..n + 1], env)
    ensures AllGroupProbes(groups[..n + 1], env) == AllGroupProbes(groups[..n], env) + GroupProbes(groups[n], env)
  {
    hide GroupProbes, Buildable;
    assert groups[..n + 1][..n] == groups[..n];
  }

  // ---- The probes, one by one ---------------------------------------------------------------

  /** How many probes stand in front of those of the k-th group. */
  function ProbesBefore(groups: seq<TargetGroup>, k: nat): nat
    requires k <= |groups|
  {
    if k == 0 then 0 else ProbesBefore(groups, k - 1) + |groups[k - 1].hosts|
  }

  lemma {:induction false} BeforeInFront(groups: seq<TargetGroup>, n: nat, k: nat)
    requires k <= n <= |groups|
    ensures ProbesBefore(groups[..n], k) == ProbesBefore(groups, k)
  {
    if k > 0 {
      BeforeInFront(groups, n, k - 1);
    }
  }

  lemma {:induction false} WhereProbesAre(groups: seq<TargetGroup>, env: Env, k: nat, i: nat)
    requires forall j :: 0 <= j < |groups| ==> Found(env.ping, groups[j].network, groups[j].hosts)
    requires k < |groups| && i < |groups[k].hosts|
    ensures |AllGroupProbes(groups, env)| == ProbesBefore(groups, |groups|)
    ensures ProbesBefore(groups, k) + i < |AllGroupProbes(groups, env)|
    ensures AllGroupProbes(groups, env)[ProbesBefore(groups, k) + i] == GroupProbes(groups[k], env)[i]
  {
    hide Found;
    var n := |groups| - 1;
    var before := groups[..n];
    assert forall j :: 0 <= j < n ==> before[j] == groups[j];
    BeforeInFront(groups, n, n);
    ProbesCounted(before, env);
    if k < n {
      BeforeInFront(groups, n, k);
      WhereProbesAre(before, env, k, i);
    }
  }

  lemma {:induction false} ProbesCounted(groups: seq<TargetGroup>, env: Env)
    requires forall j :: 0 <= j < |groups| ==> Found(env.ping, groups[j].network, groups[j].hosts)
    ensures |AllGroupProbes(groups, env)| == ProbesBefore(groups, |groups|)
  {
    hide Found;
    if groups != [] {
      var n := |groups| - 1;
      assert forall j :: 0 <= j < n ==> groups[..n][j] == groups[j];
      ProbesCounted(groups[..n], env);
      BeforeInFront(groups, n, n);
    }
  }

  /** The pinger for the i-th host of the k-th group. Through a router or not, it is a
      local one: at the local interval if the group has a router, at the group's interval
      if it has none. */
  lemma ProbeOfHost(c: Config, cli: Cli, env: Env, k: nat, i: nat)
    requires Preparable(c, cli, env) && k < |c.targets| && i < |c.targets[k].hosts|
    ensures env.ping(c.targets[k].hosts[i], c.targets[k].network).Some?
    ensures var all := CliProbes(cli, env) + AllGroupProbes(c.targets, env);
            && |all| == |cli.hosts| + ProbesBefore(c.targets, |c.targets|)
            && |cli.hosts| + ProbesBefore(c.targets, k) + i < |all|
            && var p, tg := all[|cli.hosts| + ProbesBefore(c.targets, k) + i], c.targets[k];
               && p.host == tg.hosts[i] && p.address == env.ping(tg.hosts[i], tg.network).value
               && p.interval == (if tg.router != "" then tg.localInterval else tg.interval)
               && p.network == tg.network && p.size == tg.size && 24 <= p.size <= 65535
               && p.source == tg.source && p.tos == tg.tos
               && p.privileged == (tg.protocol == "icmp") && p.labels == tg.labels
  {
    hide ProbesBefore, Buildable, RouterReady, AllGroupProbes;
    assert forall j :: 0 <= j < |c.targets| ==> GroupReady(c.routers, c.targets[j], env);
    WhereProbesAre(c.targets, env, k, i);
  }

  /** The pinger for the i-th host of the command line. */
  lemma ProbeOfArgument(c: Config, cli: Cli, env: Env, i: nat)
    requires Preparable(c, cli, env) && i < |cli.hosts|
    ensures env.ping(cli.hosts[i], "ip").Some?
    ensures var all := CliProbes(cli, env) + AllGroupProbes(c.targets, env);
            && i < |all|
            && all[i] == Probe(cli.hosts[i], env.ping(cli.hosts[i], "ip").value, cli.interval, "ip", cli.size, "",
                               cli.tos, cli.privileged, map[])
  {
    hide GroupsReady, RouterReady, AllGroupProbes;
    AllFound(c, env) by {
      assert GroupsReady(c.routers, c.targets, env);
    }
  }

  lemma AllFound(c: Config, env: Env)
    requires GroupsReady(c.routers, c.targets, env)
    ensures forall j :: 0 <= j < |c.targets| ==> Found(env.ping, c.targets[j].network, c.targets[j].hosts)
  {
    hide Buildable, Found;
    assert forall j :: 0 <= j < |c.targets| ==> GroupReady(c.routers, c.targets[j], env);
  }

  // ---- The schedulers ---------------------------------------------------------------------

  /** The routers that have targets, in their order. */
  function WithTargets(rs: seq<Router>, c: Config, env: Env): seq<Router> {
    if rs == [] then []
    else
      var n := |rs| - 1;
      WithTargets(rs[..n], c, env) + if RouterInfos(c.routers, c.targets, rs[n].name, env) != [] then [rs[n]] else []
  }

  /** One scheduler for each of these routers, with all of its targets. */
  ghost predicate Scheduled(ss: seq<RouterScheduler>, rs: seq<Router>, c: Config, env: Env) {
    |ss| == |rs| && forall k :: 0 <= k < |ss| ==>
      && ss[k].router == rs[k].name && ss[k].sessions == rs[k].sessions
      && Describe(ss[k].targets, RouterInfos(c.routers, c.targets, rs[k].name, env))
  }

  /** The targets of the schedulers, one after the other. */
  function TargetsOf(ss: seq<RouterScheduler>): seq<Target> {
    if ss == [] then [] else TargetsOf(ss[..|ss| - 1]) + ss[|ss| - 1].targets
  }

  ghost predicate New(ss: seq<RouterScheduler>)
    reads ss
  {
    forall k :: 0 <= k < |ss| ==> ss[k].starts == 0 && !ss[k].running
  }

  /** Each scheduler has the targets of its own router in the map. */
  ghost predicate Served(ss: seq<RouterScheduler>, m: ByRouter) {
    && (forall k :: 0 <= k < |ss| ==> ss[k].router in m && ss[k].targets == m[ss[k].router])
    && (forall j, k :: 0 <= j < k < |ss| ==> ss[j].router != ss[k].router)
  }

  lemma {:induction false} ServedMember(ss: seq<RouterScheduler>, t: Target)
    ensures t in TargetsOf(ss) <==> exists k :: 0 <= k < |ss| && t in ss[k].targets
  {
    if ss != [] {
      var n := |ss| - 1;
      ServedMember(ss[..n], t);
      assert (exists k :: 0 <= k < n && t in ss[..n][k].targets)
          <==> (exists k :: 0 <= k < n && t in ss[k].targets) by {
        assert forall k :: 0 <= k < n ==> ss[..n][k] == ss[k];
      }
    }
  }

  lemma {:induction false} ServedDistinct(ss: seq<RouterScheduler>, m: ByRouter)
    requires Served(ss, m) && Unshared(m)
    ensures Distinct(TargetsOf(ss))
  {
    if ss != [] {
      var n := |ss| - 1;
      ServedDistinct(ss[..n], m);
      forall t | t in ss[n].targets ensures t !in TargetsOf(ss[..n]) {
        ServedMember(ss[..n], t);
      }
      DistinctAppend(TargetsOf(ss[..n]), ss[n].targets);
    }
  }

  /** The loop over the routers. */
  method PrepareSchedulers(c: Config, remote: ByRouter, env: Env)
      returns (r: Result<seq<RouterScheduler>, PrepareError>)
    requires forall i, j :: 0 <= i < j < |c.routers| ==> c.routers[i].name != c.routers[j].name
    requires Assigned(remote, c.routers, c.targets, env)
    ensures r.Ok? <==> forall i :: 0 <= i < |c.routers| ==> RouterReady(c, c.routers[i], env)
    ensures r.Ok? ==> Scheduled(r.value, WithTargets(c.routers, c, env), c, env) && Served(r.value, remote)
    ensures r.Ok? ==> New(r.value) && Distinct(r.value) && forall s :: s in r.value ==> fresh(s)
    ensures r.Err? ==> r.error.NoCredentials? && NoCredentialsFor(c, env, r.error.router)
  {
    hide RouterInfos, Describe, Assigned, WithTargets;
    var ss: seq<RouterScheduler> := [];
    NoRouters(c, env);
    for i := 0 to |c.routers|
      invariant forall k :: 0 <= k < i ==> RouterReady(c, c.routers[k], env)
      invariant Scheduled(ss, WithTargets(c.routers[..i], c, env), c, env) && Served(ss, remote)
      invariant forall k, j :: 0 <= k < |ss| && i <= j < |c.routers| ==> ss[k].router != c.routers[j].name
      invariant New(ss) && Distinct(ss) && forall s :: s in ss ==> fresh(s)
    {
      var router := c.routers[i];
      var targets := TargetsAt(remote, router.name);
      OneMoreRouter(c.routers, i, c, env);
      TargetsThere(remote, c, env, router.name);
      if |targets| == 0 { continue; }
      if !env.credentials(router) { return Err(NoCredentials(router.name)); }
      var s := new RouterScheduler(router.name, router.sessions, targets);
      ss := ss + [s];
    }
    assert c.routers[..|c.routers|] == c.routers;
    return Ok(ss);
  }

  lemma {:induction false} FromRouters(rs: seq<Router>, c: Config, env: Env, k: nat)
    requires k < |WithTargets(rs, c, env)|
    ensures exists i :: 0 <= i < |rs| && WithTargets(rs, c, env)[k] == rs[i]
    ensures RouterInfos(c.routers, c.targets, WithTargets(rs, c, env)[k].name, env) != []
  {
    hide RouterInfos;
    var n := |rs| - 1;
    var before := WithTargets(rs[..n], c, env);
    if k < |before| {
      FromRouters(rs[..n], c, env, k);
      var i :| 0 <= i < |rs[..n]| && before[k] == rs[..n][i];
      assert rs[i] == rs[..n][i];
    } else {
      assert WithTargets(rs, c, env)[k] == rs[n];
    }
  }

  /** Each scheduler is one router's: its name, its number of sessions, and targets, of
      which it has at least one. */
  lemma SchedulerOfRouter(ss: seq<RouterScheduler>, c: Config, env: Env, k: nat)
    requires Scheduled(ss, WithTargets(c.routers, c, env), c, env) && k < |ss|
    ensures exists i :: 0 <= i < |c.routers| && ss[k].router == c.routers[i].name
                        && ss[k].sessions == c.routers[i].sessions
    ensures |ss[k].targets| >= 1
    ensures forall j :: 0 <= j < |ss[k].targets| ==>
              ss[k].targets[j].info in RouterInfos(c.routers, c.targets, ss[k].router, env)
  {
    hide RouterInfos;
    FromRouters(c.routers, c, env, k);
  }

  lemma NoRouters(c: Config, env: Env)
    ensures WithTargets([], c, env) == []
  {}

  lemma OneMoreRouter(rs: seq<Router>, i: nat, c: Config, env: Env)
    requires i < |rs|
    ensures WithTargets(rs[..i + 1], c, env)
         == WithTargets(rs[..i], c, env)
            + if RouterInfos(c.routers, c.targets, rs[i].name, env) != [] then [rs[i]] else []
  {
    hide RouterInfos;
    assert rs[..i + 1][..i] == rs[..i];
  }

  lemma TargetsThere(remote: ByRouter, c: Config, env: Env, name: string)
    requires Assigned(remote, c.routers, c.targets, env)
    ensures var ts, xs := TargetsAt(remote, name), RouterInfos(c.routers, c.targets, name, env);
            Describe(ts, xs) && (ts == [] <==> xs == [])
  {}

  // ---- The pingers of the process ------------------------------------------------------------

  function Sizes(ss: seq<RouterScheduler>): nat {
    if ss == [] then 0 else Sizes(ss[..|ss| - 1]) + |ss[|ss| - 1].targets|
  }

  lemma {:induction false} SizesCount(ss: seq<RouterScheduler>)
    ensures Sizes(ss) == |TargetsOf(ss)|
  {
    if ss != [] {
      SizesCount(ss[..|ss| - 1]);
    }
  }

  class SmokePingers {
    var started: seq<Probe>
    var prepared: seq<Probe>
    var startedRemote: seq<RouterScheduler>
    var preparedRemote: seq<RouterScheduler>
    var maxInterval: int

    /** Prepared schedulers are new, started ones have been started at most once,
        and no scheduler is both. */
    ghost predicate Valid()
      reads this, startedRemote, preparedRemote
    {
      && Distinct(startedRemote) && Distinct(preparedRemote)
          && (forall s :: s in startedRemote ==> s !in preparedRemote)
      && New(preparedRemote)
      && forall s :: s in startedRemote ==> s.starts <= 1 && (s.running ==> s.starts == 1)
    }

    constructor ()
      ensures Valid() && started == [] && prepared == [] && startedRemote == [] && preparedRemote == []
          && maxInterval == 0
    {
      started, prepared, startedRemote, preparedRemote, maxInterval := [], [], [], [], 0;
    }

    method SizeOfPrepared() returns (n: nat)
      ensures n == |prepared| + |TargetsOf(preparedRemote)|
    {
      n := |prepared|;
      for k := 0 to |preparedRemote|
        invariant n == |prepared| + Sizes(preparedRemote[..k])
      {
        assert preparedRemote[..k + 1][..k] == preparedRemote[..k];
        n := n + |preparedRemote[k].targets|;
      }
      assert preparedRemote[..|preparedRemote|] == preparedRemote;
      SizesCount(preparedRemote);
    }

    method RemoteTargets() returns (targets: seq<Target>)
      ensures targets == TargetsOf(startedRemote)
    {
      targets := [];
      for k := 0 to |startedRemote|
        invariant targets == TargetsOf(startedRemote[..k])
      {
        assert startedRemote[..k + 1][..k] == startedRemote[..k];
        targets := targets + startedRemote[k].targets;
      }
      assert startedRemote[..|startedRemote|] == startedRemote;
    }

    /** Sets up every pinger and scheduler of the configuration, or leaves what was
        prepared before as it was. */
    method Prepare(sc: SafeConfig, cli: Cli, env: Env) returns (err: Option<PrepareError>)
      requires Valid() && sc.Valid()
      modifies this`prepared, this`preparedRemote, this`maxInterval
      ensures Valid()
      ensures err.None? <==> Preparable(sc.c, cli, env)
      ensures err.Some? ==> FirstProblem(sc.c, cli, env, err.value)
      ensures err.Some? ==> prepared == old(prepared) && preparedRemote == old(preparedRemote)
      ensures err.Some? ==> maxInterval == old(maxInterval)
      ensures err.None? ==> prepared == CliProbes(cli, env) + AllGroupProbes(sc.c.targets, env)
      ensures err.None? ==> IsLongest(maxInterval, cli.interval, sc.c.targets)
      ensures err.None? ==> Scheduled(preparedRemote, WithTargets(sc.c.routers, sc.c, env), sc.c, env)
      ensures err.None? ==> Distinct(TargetsOf(preparedRemote))
      ensures err.None? ==> forall t :: t in TargetsOf(preparedRemote) ==> fresh(t)
      ensures err.None? ==> Pristine(TargetsOf(preparedRemote))
    {
      hide Assigned, Unshared, Scheduled, IsLongest, AllGroupProbes, WithTargets, RouterReady, GroupReady;
      hide FirstUnresolved, GroupsProblem, NoCredentialsFor;
      var c := sc.c;
      var probes := ProbesOfCli(cli, env);
      if probes.Err? { return Some(probes.error); }
      var failed, more, remote, longest := PrepareGroups(sc.parse, c, cli.interval, env);
      if failed.Some? { return failed; }
      var schedulers := PrepareSchedulers(c, remote, env);
      if schedulers.Err? { return Some(schedulers.error); }
      ServedDistinct(schedulers.value, remote);
      forall t | t in TargetsOf(schedulers.value) ensures fresh(t) && t.sent == 0 && !t.pending {
        ServedMember(schedulers.value, t);
        assert exists a :: a in remote && t in remote[a];
      }
      prepared := probes.value + more;
      preparedRemote := schedulers.value;
      maxInterval := longest;
      return None;
    }

    /** Stops every scheduler of startedRemote and lets go of them. */
    method Stop()
      requires Valid()
      modifies this`startedRemote, startedRemote
      ensures Valid() && startedRemote == []
      ensures forall s :: s in old(startedRemote) ==> !s.running && s.starts == old(s.starts)
    {
      for k := 0 to |startedRemote|
        invariant startedRemote == old(startedRemote) && New(preparedRemote)
        invariant forall j :: 0 <= j < k ==> !startedRemote[j].running
        invariant forall s :: s in startedRemote ==> s.starts == old(s.starts)
      {
        assert startedRemote[k] in startedRemote;
        startedRemote[k].Stop();
      }
      startedRemote := [];
    }

    /** Makes what was prepared current, after stopping what was; with nothing
        prepared, nothing happens. The new schedulers do not run yet. */
    method Start()
      requires Valid()
      modifies this`started, this`prepared, this`startedRemote, this`preparedRemote, startedRemote
      ensures Valid()
      ensures var nothing := old(prepared) == [] && TargetsOf(old(preparedRemote)) == [];
              if nothing
              then started == old(started) && prepared == []
                   && startedRemote == old(startedRemote) && preparedRemote == old(preparedRemote)
                   && forall s :: s in old(startedRemote) ==> s.running == old(s.running) && s.starts == old(s.starts)
              else started == old(prepared) && prepared == []
                   && startedRemote == old(preparedRemote) && preparedRemote == []
                   && New(startedRemote)
                   && forall s :: s in old(startedRemote) ==> !s.running && s.starts == old(s.starts)
    {
      var size := SizeOfPrepared();
      if size == 0 { return; }
      Stop();
      startedRemote := preparedRemote;
      preparedRemote := [];
      started := prepared;
      prepared := [];
    }

    /** Starts each scheduler that Start made current, once. */
    method StartRemote()
      requires Valid() && New(startedRemote)
      modifies startedRemote
      ensures Valid()
      ensures forall s :: s in startedRemote ==> s.starts == 1 && s.running
    {
      for k := 0 to |startedRemote|
        invariant forall j :: 0 <= j < k ==> startedRemote[j].starts == 1 && startedRemote[j].running
        invariant forall j :: k <= j < |startedRemote| ==> startedRemote[j].starts == 0 && !startedRemote[j].running
        invariant New(preparedRemote)
      {
        assert startedRemote[k] in startedRemote;
        startedRemote[k].Start();
      }
    }
  }

  // ---- The partition ----------------------------------------------------------------------------

  /** What all the groups are expanded to, group by group. */
  function BuiltInfos(routers: seq<Router>, groups: seq<TargetGroup>, env: Env): seq<TargetInfo> {
    if groups == [] then []
    else BuiltInfos(routers, groups[..|groups| - 1], env) + GroupInfos(routers, groups[|groups| - 1], env)
  }

  /** What the routers are given, router by router. */
  function GivenInfos(rs: seq<Router>, routers: seq<Router>, groups: seq<TargetGroup>, env: Env): seq<TargetInfo> {
    if rs == [] then []
    else GivenInfos(rs[..|rs| - 1], routers, groups, env) + RouterInfos(routers, groups, rs[|rs| - 1].name, env)
  }

  lemma RouterInfosMore(routers: seq<Router>, groups: seq<TargetGroup>, n: nat, name: string, env: Env)
    requires n < |groups|
    ensures RouterInfos(routers, groups[..n + 1], name, env)
         == RouterInfos(routers, groups[..n], name, env)
            + if groups[n].router == name && name != "" then GroupInfos(routers, groups[n], env) else []
  {
    assert groups[..n + 1][..n] == groups[..n];
  }

  lemma NamedOnce(rs: seq<Router>, name: string)
    requires rs != [] && forall i, j :: 0 <= i < j < |rs| ==> rs[i].name != rs[j].name
    ensures var m := |rs| - 1;
            if rs[m].name == name then HasName(rs, name) && !HasName(rs[..m], name)
            else HasName(rs[..m], name) <==> HasName(rs, name)
  {
    var m := |rs| - 1;
    if rs[m].name != name && HasName(rs, name) {
      var i :| 0 <= i < |rs| && rs[i].name == name;
      assert rs[..m][i].name == name;
    }
  }

  ghost predicate HasName(rs: seq<Router>, name: string) { exists i :: 0 <= i < |rs| && rs[i].name == name }

  /** One more group gives more to the one router of its name only. */
  lemma {:induction false} OneMoreGroup(rs: seq<Router>, routers: seq<Router>, groups: seq<TargetGroup>, n: nat,
      env: Env)
    requires n < |groups| && forall i, j :: 0 <= i < j < |rs| ==> rs[i].name != rs[j].name
    requires forall i :: 0 <= i < |rs| ==> rs[i].name != ""
    ensures multiset(GivenInfos(rs, routers, groups[..n + 1], env))
         == multiset(GivenInfos(rs, routers, groups[..n], env))
            + if HasName(rs, groups[n].router) then multiset(GroupInfos(routers, groups[n], env)) else multiset{}
  {
    hide GroupInfos, RouterInfos, HasName, GivenInfos;
    if rs == [] {
      NoName(groups[n].router);
      NoneGiven(routers, groups[..n], env);
      NoneGiven(routers, groups[..n + 1], env);
    } else {
      var m := |rs| - 1;
      OneMoreGroup(rs[..m], routers, groups, n, env);
      RouterInfosMore(routers, groups, n, rs[m].name, env);
      NamedOnce(rs, groups[n].router);
      LastGiven(rs, routers, groups[..n], env);
      LastGiven(rs, routers, groups[..n + 1], env);
    }
  }

  lemma NoneGiven(routers: seq<Router>, groups: seq<TargetGroup>, env: Env)
    ensures GivenInfos([], routers, groups, env) == []
  {}

  lemma LastGiven(rs: seq<Router>, routers: seq<Router>, groups: seq<TargetGroup>, env: Env)
    requires rs != []
    ensures multiset(GivenInfos(rs, routers, groups, env))
         == multiset(GivenInfos(rs[..|rs| - 1], routers, groups, env))
            + multiset(RouterInfos(routers, groups, rs[|rs| - 1].name, env))
  {
    hide RouterInfos;
  }

  lemma NoName(name: string)
    ensures !HasName([], name)
  {}

  lemma GivenNothing(rs: seq<Router>, routers: seq<Router>, env: Env)
    ensures GivenInfos(rs, routers, [], env) == []
  {
    if rs != [] {
      GivenNothing(rs[..|rs| - 1], routers, env);
    }
  }

  lemma {:induction false} GroupsPartition(parse: Parser, c: Config, env: Env, n: nat)
    requires WellFormed(parse, c) && n <= |c.targets|
    ensures multiset(GivenInfos(c.routers, c.routers, c.targets[..n], env)) == multiset(BuiltInfos(c.routers,
        c.targets[..n], env))
  {
    hide GroupInfos, RouterInfos, GroupOk;
    if n == 0 {
      GivenNothing(c.routers, c.routers, env);
      assert c.targets[..0] == [];
    } else {
      var tg := c.targets[n - 1];
      GroupsPartition(parse, c, env, n - 1);
      RoutersNamed(parse, c);
      OneMoreGroup(c.routers, c.routers, c.targets, n - 1, env);
      assert c.targets[..n][..n - 1] == c.targets[..n - 1];
      if tg.router == "" {
        NoInfos(c.routers, tg, env);
      } else {
        GroupHasRouter(parse, c, tg);
        var i :| 0 <= i < |c.routers| && c.routers[i] == NamedRouter(c.routers, tg.router);
        assert HasName(c.routers, tg.router);
      }
    }
  }

  lemma NoInfos(routers: seq<Router>, tg: TargetGroup, env: Env)
    requires tg.router == ""
    ensures GroupInfos(routers, tg, env) == []
  {}

  lemma RoutersNamed(parse: Parser, c: Config)
    requires WellFormed(parse, c)
    ensures forall i :: 0 <= i < |c.routers| ==> c.routers[i].name != ""
  {
    assert forall i :: 0 <= i < |c.routers| ==> RouterOk(parse, c.routers[i]);
  }

  function InfosOf(targets: seq<Target>): seq<TargetInfo> {
    seq(|targets|, i requires 0 <= i < |targets| => targets[i].info)
  }

  lemma InfosAppend(a: seq<Target>, b: seq<Target>)
    ensures InfosOf(a + b) == InfosOf(a) + InfosOf(b)
  {}

  lemma DescribedInfos(targets: seq<Target>, infos: seq<TargetInfo>)
    requires Describe(targets, infos)
    ensures InfosOf(targets) == infos
  {}

  /** The schedulers hold, one after the other, what the routers are given. */
  lemma {:induction false} SchedulersHold(ss: seq<RouterScheduler>, rs: seq<Router>, c: Config, env: Env)
    requires Scheduled(ss, WithTargets(rs, c, env), c, env)
    ensures InfosOf(TargetsOf(ss)) == GivenInfos(rs, c.routers, c.targets, env)
  {
    hide Describe, RouterInfos;
    if rs != [] {
      var n := |rs| - 1;
      var before := WithTargets(rs[..n], c, env);
      if RouterInfos(c.routers, c.targets, rs[n].name, env) != [] {
        var m := |ss| - 1;
        assert before + [rs[n]] == WithTargets(rs, c, env) && |before| == m;
        assert forall k :: 0 <= k < m ==> ss[..m][k] == ss[k] && before[k] == WithTargets(rs, c, env)[k];
        SchedulersHold(ss[..m], rs[..n], c, env);
        DescribedInfos(ss[m].targets, RouterInfos(c.routers, c.targets, rs[n].name, env));
        InfosAppend(TargetsOf(ss[..m]), ss[m].targets);
      } else {
        SchedulersHold(ss, rs[..n], c, env);
      }
    }
  }

  /** The schedulers share out exactly what the groups were expanded to: every
      target that was built for a group is held by one scheduler, once. With
      distinct target objects, no object is shared either. */
  lemma SchedulersPartition(parse: Parser, c: Config, env: Env, ss: seq<RouterScheduler>)
    requires WellFormed(parse, c) && Scheduled(ss, WithTargets(c.routers, c, env), c, env)
    ensures multiset(InfosOf(TargetsOf(ss))) == multiset(BuiltInfos(c.routers, c.targets, env))
    ensures |TargetsOf(ss)| == |BuiltInfos(c.routers, c.targets, env)|
  {
    hide WellFormed, Scheduled, GivenInfos, BuiltInfos, TargetsOf;
    SchedulersHold(ss, c.routers, c, env);
    GroupsPartition(parse, c, env, |c.targets|);
    assert c.targets[..|c.targets|] == c.targets;
    var a, b := InfosOf(TargetsOf(ss)), BuiltInfos(c.routers, c.targets, env);
    assert |multiset(a)| == |a| && |multiset(b)| == |b|;
  }
}
