/** The configuration of config/config.go, after YAML decoding: lookup, link
    selection, defaults, validation and reload. */
module Config {
  import opened Wrappers
  import opened Text
  import opened Huawei

  const SECOND := 1_000_000_000

  /** An IP address as its canonical text; `v4` says whether it has a 4-byte form,
      which an IPv4-mapped IPv6 address has too. */
  datatype Address = Address(text: string, v4: bool)

  /** What net.ParseIP does is a parameter. */
  type Parser = string -> Option<Address>

  datatype Link = Link(name: string, vpnInstance: string, source: string, source6: string)

  datatype Router = Router(
    name: string, address: string, username: string,
    passwordFile: string, privateKeyFile: string,
    knownHosts: string, insecureSkipHostKey: bool,
    sessions: int, links: seq<Link>)

  const NO_ROUTER := Router("", "", "", "", "", "", false, 0, [])

  datatype TargetGroup = TargetGroup(
    hosts: seq<string>, host: string,
    interval: int, network: string, protocol: string, size: int,
    source: string, tos: Byte, labels: map<string, string>,
    router: string, links: seq<string>,
    count: int, packetInterval: int, timeout: int, localInterval: int)

  datatype Config = Config(routers: seq<Router>, targets: seq<TargetGroup>)

  // ---- Lookup -------------------------------------------------------------------

  ghost predicate IsRouterOf(routers: seq<Router>, i: int, name: string) {
    0 <= i < |routers| && routers[i].name == name
  }

  /** The first router of that name, or the zero router. */
  function NamedRouter(routers: seq<Router>, name: string): (r: Router)
    ensures (exists i :: IsRouterOf(routers, i, name)) ==>
              exists i :: IsRouterOf(routers, i, name) && r == routers[i] && forall k :: 0 <= k < i ==>
                  routers[k].name != name
    ensures (forall i :: !IsRouterOf(routers, i, name)) ==> r == NO_ROUTER
  {
    if routers == [] then NO_ROUTER
    else if routers[0].name == name then
      assert IsRouterOf(routers, 0, name);
      routers[0]
    else
      assert forall i :: IsRouterOf(routers, i, name) ==> IsRouterOf(routers[1..], i - 1, name);
      assert forall i :: IsRouterOf(routers[1..], i, name) ==> IsRouterOf(routers, i + 1, name);
      NamedRouter(routers[1..], name)
  }

  /** Config.Router. */
  method FindRouter(c: Config, name: string) returns (r: Router, ok: bool)
    ensures r == NamedRouter(c.routers, name)
    ensures ok <==> exists i :: IsRouterOf(c.routers, i, name)
  {
    for i := 0 to |c.routers|
      invariant forall k :: 0 <= k < i ==> c.routers[k].name != name
      invariant NamedRouter(c.routers, name) == NamedRouter(c.routers[i..], name)
    {
      if c.routers[i].name == name {
        assert IsRouterOf(c.routers, i, name);
        return c.routers[i], true;
      }
      assert c.routers[i..][1..] == c.routers[i + 1..];
    }
    return NO_ROUTER, false;
  }

  /** Whether a group that names `names` uses the link. */
  predicate Eligible(l: Link, names: seq<string>) { names == [] || l.name in names }

  /** The eligible links in router order. */
  function Selected(links: seq<Link>, names: seq<string>): (r: seq<Link>)
    ensures forall l :: l in r <==> l in links && Eligible(l, names)
    ensures |r| <= |links|
  {
    if links == [] then []
    else
      var n := |links| - 1;
      Selected(links[..n], names) + if Eligible(links[n], names) then [links[n]] else []
  }

  lemma {:induction false} SelectedAll(links: seq<Link>)
    ensures Selected(links, []) == links
  {
    if links != [] {
      SelectedAll(links[..|links| - 1]);
    }
  }

  ghost predicate UniqueNames(links: seq<Link>) {
    forall i, j :: 0 <= i < j < |links| ==> links[i].name != links[j].name
  }

  lemma UniqueMore(links: seq<Link>, l: Link)
    requires UniqueNames(links)
    ensures (forall x :: x in links ==> x.name != l.name) ==> UniqueNames(links + [l])
  {}

  /** With unique link names the selection has unique names too. */
  lemma {:induction false} SelectedUnique(links: seq<Link>, names: seq<string>)
    requires UniqueNames(links)
    ensures UniqueNames(Selected(links, names))
  {
    hide UniqueNames;
    if links == [] {
      assert Selected(links, names) == links;
    } else {
      var n := |links| - 1;
      UniqueFewer(links);
      SelectedUnique(links[..n], names);
      var before := Selected(links[..n], names);
      UniqueMore(before, links[n]);
      if Eligible(links[n], names) {
        assert Selected(links, names) == before + [links[n]];
      } else {
        assert Selected(links, names) == before + [] == before;
      }
    }
  }

  lemma UniqueFewer(links: seq<Link>)
    requires UniqueNames(links) && links != []
    ensures var n := |links| - 1; UniqueNames(links[..n]) && forall x :: x in links[..n] ==> x.name != links[n].name
  {}

  predicate Increasing(at: seq<nat>) { forall i, j :: 0 <= i < j < |at| ==> at[i] < at[j] }

  /** The chosen ones are the links at these places, and these places are those of the
      links that are named, or all of them for no names. */
  predicate PickedAt(links: seq<Link>, names: seq<string>, chosen: seq<Link>, at: seq<nat>) {
    && |at| == |chosen| && Increasing(at)
    && (forall k :: 0 <= k < |at| ==> at[k] < |links| && chosen[k] == links[at[k]])
    && (forall i :: 0 <= i < |links| ==> (i in at <==> names == [] || links[i].name in names))
  }

  lemma PickedMore(links: seq<Link>, names: seq<string>, chosen: seq<Link>, at: seq<nat>)
    requires links != [] && PickedAt(links[..|links| - 1], names, chosen, at)
    ensures var n := |links| - 1;
            if names == [] || links[n].name in names then PickedAt(links, names, chosen + [links[n]], at + [n])
            else PickedAt(links, names, chosen, at)
  {
    var n := |links| - 1;
    forall i | 0 <= i < n ensures i in at <==> names == [] || links[i].name in names {
      assert links[..n][i] == links[i];
    }
    assert forall k :: 0 <= k < |at| ==> at[k] < n && links[..n][at[k]] == links[at[k]];
    assert n !in at;
  }

  /** Which links are selected: those that are named, all of them for no names, each
      once and in router order. */
  lemma {:induction false} SelectedInOrder(links: seq<Link>, names: seq<string>) returns (at: seq<nat>)
    ensures PickedAt(links, names, Selected(links, names), at)
  {
    hide PickedAt;
    if links == [] {
      at := [];
      NonePicked(names);
    } else {
      var n := |links| - 1;
      at := SelectedInOrder(links[..n], names);
      PickedMore(links, names, Selected(links[..n], names), at);
      if names == [] || links[n].name in names {
        at := at + [n];
      } else {
        assert Selected(links, names) == Selected(links[..n], names);
      }
    }
  }

  lemma NonePicked(names: seq<string>)
    ensures PickedAt([], names, [], [])
  {}

  /** Router.SelectLinks. */
  method SelectLinks(r: Router, names: seq<string>) returns (links: seq<Link>)
    ensures links == Selected(r.links, names)
  {
    if |names| == 0 {
      SelectedAll(r.links);
      return r.links;
    }
    links := [];
    for i := 0 to |r.links|
      invariant links == Selected(r.links[..i], names)
    {
      assert r.links[..i + 1][..i] == r.links[..i];
      if r.links[i].name in names {
        links := links + [r.links[i]];
      }
    }
    assert r.links[..|r.links|] == r.links;
  }

  /** The address a ping through the link is sent from. */
  function SourceFor(l: Link, v6: bool): string { if v6 then l.source6 else l.source }

  predicate AnySource(links: seq<Link>, v6: bool) {
    exists l :: l in links && SourceFor(l, v6) != ""
  }

  // ---- What a configuration must satisfy ------------------------------------------

  /** `^[A-Za-z0-9_.-]+$` */
  predicate IsVpnInstance(s: string) {
    s != "" && forall i :: 0 <= i < |s| ==> IsLetter(s[i]) || IsDigit(s[i]) || s[i] in {'_', '.', '-'}
  }

  predicate IsFamily(parse: Parser, s: string, v4: bool) { parse(s).Some? && parse(s).value.v4 == v4 }

  ghost predicate LinkOk(parse: Parser, l: Link) {
    && l.name != "" && (l.source != "" || l.source6 != "")
    && (l.vpnInstance != "" ==> IsVpnInstance(l.vpnInstance))
    && (l.source != "" ==> IsFamily(parse, l.source, true))
    && (l.source6 != "" ==> IsFamily(parse, l.source6, false))
  }

  ghost predicate RouterOk(parse: Parser, r: Router) {
    && r.name != "" && r.address != "" && r.username != ""
    && (r.passwordFile != "" || r.privateKeyFile != "")
    && (r.knownHosts != "" || r.insecureSkipHostKey)
    && r.sessions >= 1
    && r.links != []
    && (forall i :: 0 <= i < |r.links| ==> LinkOk(parse, r.links[i]))
    && UniqueNames(r.links)
  }

  predicate NoRouterSettings(tg: TargetGroup) {
    tg.count == 0 && tg.packetInterval == 0 && tg.timeout == 0 && tg.localInterval == 0 && tg.links == []
  }

  /** Some link the group may use has a source address of the family. */
  ghost predicate Reaches(r: Router, tg: TargetGroup, v6: bool) {
    exists j :: 0 <= j < |r.links| && Eligible(r.links[j], tg.links) && SourceFor(r.links[j], v6) != ""
  }

  ghost predicate HasLink(r: Router, name: string) {
    exists j :: 0 <= j < |r.links| && r.links[j].name == name
  }

  ghost predicate RoutedGroupOk(parse: Parser, r: Router, tg: TargetGroup) {
    && tg.source == ""
    && tg.network in {"ip", "ip4", "ip6"}
    && tg.count >= 1 && tg.interval > 0 && tg.localInterval > 0
    && (forall k :: 0 <= k < |tg.links| ==> HasLink(r, tg.links[k]))
    && (tg.network == "ip6" ==> Reaches(r, tg, true))
    && (tg.network == "ip4" ==> Reaches(r, tg, false))
    && (tg.network == "ip" ==> forall k :: 0 <= k < |tg.hosts| && parse(tg.hosts[k]).Some? ==>
          Reaches(r, tg, !parse(tg.hosts[k]).value.v4))
  }

  ghost predicate GroupOk(parse: Parser, c: Config, tg: TargetGroup) {
    if tg.router == "" then NoRouterSettings(tg)
    else exists i :: IsRouterOf(c.routers, i, tg.router) && RoutedGroupOk(parse, c.routers[i], tg)
  }

  ghost predicate WellFormed(parse: Parser, c: Config) {
    && (forall i :: 0 <= i < |c.routers| ==> RouterOk(parse, c.routers[i]))
    && (forall i, j :: 0 <= i < j < |c.routers| ==> c.routers[i].name != c.routers[j].name)
    && (forall k :: 0 <= k < |c.targets| ==> GroupOk(parse, c, c.targets[k]))
  }

  // ---- What each check is ---------------------------------------------------------------

  /** Every check of a link matters, and there are no others: what becomes of a good link
      when one setting of it is changed. */
  lemma LinkChecks(parse: Parser, l: Link, s: string)
    requires LinkOk(parse, l)
    ensures LinkOk(parse, l.(name := s)) <==> s != ""
    ensures !LinkOk(parse, l.(source := "", source6 := ""))
    ensures LinkOk(parse, l.(source := s)) <==>
              if s == "" then l.source6 != "" else parse(s).Some? && parse(s).value.v4
    ensures LinkOk(parse, l.(source6 := s)) <==>
              if s == "" then l.source != "" else parse(s).Some? && !parse(s).value.v4
    ensures LinkOk(parse, l.(vpnInstance := s)) <==>
              forall i :: 0 <= i < |s| ==>
                'a' <= s[i] <= 'z' || 'A' <= s[i] <= 'Z' || '0' <= s[i] <= '9' || s[i] in {'_', '.', '-'}
  {}

  /** The same for the settings of a router. */
  lemma RouterChecks(parse: Parser, r: Router, s: string, t: string, b: bool, n: int, l: Link)
    requires RouterOk(parse, r)
    ensures RouterOk(parse, r.(name := s)) <==> s != ""
    ensures RouterOk(parse, r.(address := s)) <==> s != ""
    ensures RouterOk(parse, r.(username := s)) <==> s != ""
    ensures RouterOk(parse, r.(passwordFile := s, privateKeyFile := t)) <==> s != "" || t != ""
    ensures RouterOk(parse, r.(knownHosts := s, insecureSkipHostKey := b)) <==> s != "" || b
    ensures RouterOk(parse, r.(sessions := n)) <==> n >= 1
    ensures !RouterOk(parse, r.(links := []))
    ensures RouterOk(parse, r.(links := r.links + [l])) <==>
              LinkOk(parse, l) && forall i :: 0 <= i < |r.links| ==> r.links[i].name != l.name
  {
    hide LinkOk;
    var more := r.links + [l];
    assert more[|r.links|] == l && forall i :: 0 <= i < |r.links| ==> more[i] == r.links[i];
  }

  lemma SameReach(r: Router, a: TargetGroup, b: TargetGroup)
    requires a.links == b.links
    ensures forall v6 :: Reaches(r, a, v6) <==> Reaches(r, b, v6)
  {}

  /** And for those of a group with a router. How long a packet may take, how far apart
      packets are, and what only concerns local pings is not checked. */
  lemma GroupChecks(parse: Parser, r: Router, tg: TargetGroup, other: TargetGroup)
    requires RoutedGroupOk(parse, r, tg)
    requires other.hosts == tg.hosts && other.network == tg.network && other.links == tg.links
    ensures RoutedGroupOk(parse, r, other) <==>
              other.source == "" && other.count >= 1 && other.interval > 0 && other.localInterval > 0
  {
    hide Reaches, HasLink;
    SameReach(r, tg, other);
  }

  lemma GroupNamesChecked(parse: Parser, r: Router, tg: TargetGroup, s: string)
    ensures s !in {"ip", "ip4", "ip6"} ==> !RoutedGroupOk(parse, r, tg.(network := s))
    ensures (forall j :: 0 <= j < |r.links| ==> r.links[j].name != s) ==>
              !RoutedGroupOk(parse, r, tg.(links := tg.links + [s]))
  {
    assert (tg.links + [s])[|tg.links|] == s;
  }

  /** A group without a router has none of the settings that need one. */
  lemma LocalGroupChecks(tg: TargetGroup, n: int)
    requires NoRouterSettings(tg)
    ensures NoRouterSettings(tg.(count := n)) <==> n == 0
    ensures NoRouterSettings(tg.(packetInterval := n)) <==> n == 0
    ensures NoRouterSettings(tg.(timeout := n)) <==> n == 0
    ensures NoRouterSettings(tg.(localInterval := n)) <==> n == 0
    ensures forall s :: !NoRouterSettings(tg.(links := [s]))
  {}

  // ---- What an error claims ----------------------------------------------------------

  datatype LinkDefect = Sourceless | BadVpnInstance | BadSource | BadSource6

  datatype RouterDefect =
    | NoAddress | NoUsername | NoCredential | NoKnownHosts | TooFewSessions | Linkless
    | NamelessLink | DuplicateLink(link: string) | InLink(link: string, ld: LinkDefect)

  datatype GroupDefect =
    | NeedsRouter | UnknownRouter | OwnSource | BadNetwork | TooFew | BadInterval | BadLocalInterval
    | UnknownLink(link: string) | NoSource6 | NoSource4
    | Host6Unreachable(host: string) | Host4Unreachable(host: string)

  datatype ConfigError =
    | NamelessRouter(i: nat)
    | DuplicateRouter(name: string)
    | InRouter(name: string, rd: RouterDefect)
    | InGroup(k: nat, gd: GroupDefect)

  ghost predicate HasLinkDefect(parse: Parser, l: Link, d: LinkDefect) {
    match d
    case Sourceless => l.source == "" && l.source6 == ""
    case BadVpnInstance => l.vpnInstance != "" && !IsVpnInstance(l.vpnInstance)
    case BadSource => l.source != "" && !IsFamily(parse, l.source, true)
    case BadSource6 => l.source6 != "" && !IsFamily(parse, l.source6, false)
  }

  ghost predicate HasRouterDefect(parse: Parser, r: Router, d: RouterDefect) {
    match d
    case NoAddress => r.address == ""
    case NoUsername => r.username == ""
    case NoCredential => r.passwordFile == "" && r.privateKeyFile == ""
    case NoKnownHosts => r.knownHosts == "" && !r.insecureSkipHostKey
    case TooFewSessions => r.sessions < 1
    case Linkless => r.links == []
    case NamelessLink => HasLink(r, "")
    case DuplicateLink(name) =>
      exists i, j :: 0 <= i < j < |r.links| && r.links[i].name == name && r.links[j].name == name
    case InLink(name, ld) =>
      exists i :: 0 <= i < |r.links| && r.links[i].name == name && HasLinkDefect(parse, r.links[i], ld)
  }

  ghost predicate HasGroupDefect(parse: Parser, r: Router, tg: TargetGroup, d: GroupDefect)
    requires !d.NeedsRouter? && !d.UnknownRouter?
  {
    match d
    case OwnSource => tg.source != ""
    case BadNetwork => tg.network !in {"ip", "ip4", "ip6"}
    case TooFew => tg.count < 1
    case BadInterval => tg.interval <= 0
    case BadLocalInterval => tg.localInterval <= 0
    case UnknownLink(name) => name in tg.links && !HasLink(r, name)
    case NoSource6 => tg.network == "ip6" && !Reaches(r, tg, true)
    case NoSource4 => tg.network == "ip4" && !Reaches(r, tg, false)
    case Host6Unreachable(host) =>
      tg.network == "ip" && host in tg.hosts && IsFamily(parse, host, false) && !Reaches(r, tg, true)
    case Host4Unreachable(host) =>
      tg.network == "ip" && host in tg.hosts && IsFamily(parse, host, true) && !Reaches(r, tg, false)
  }

  /** The error names something that is really wrong with the configuration. */
  ghost predicate HasDefect(parse: Parser, c: Config, e: ConfigError) {
    match e
    case NamelessRouter(i) => IsRouterOf(c.routers, i, "")
    case DuplicateRouter(name) =>
      exists i, j :: 0 <= i < j && IsRouterOf(c.routers, i, name) && IsRouterOf(c.routers, j, name)
    case InRouter(name, rd) => exists i :: IsRouterOf(c.routers, i, name) && HasRouterDefect(parse, c.routers[i], rd)
    case InGroup(k, gd) =>
      && k < |c.targets|
      && var tg := c.targets[k];
         match gd
         case NeedsRouter => tg.router == "" && !NoRouterSettings(tg)
         case UnknownRouter => tg.router != "" && forall i :: !IsRouterOf(c.routers, i, tg.router)
         case _ => tg.router != ""
                   && exists i :: IsRouterOf(c.routers, i, tg.router) && HasGroupDefect(parse, c.routers[i], tg, gd)
  }

  // ---- Validation ----------------------------------------------------------------------

  /** The checks of one link, in their order. */
  function LinkProblem(parse: Parser, l: Link): Option<LinkDefect> {
    if l.source == "" && l.source6 == "" then Some(Sourceless)
    else if l.vpnInstance != "" && !IsVpnInstance(l.vpnInstance) then Some(BadVpnInstance)
    else if l.source != "" && !IsFamily(parse, l.source, true) then Some(BadSource)
    else if l.source6 != "" && !IsFamily(parse, l.source6, false) then Some(BadSource6)
    else None
  }

  /** The body of the loop over the routers, after the checks of the name. */
  method ValidateRouter(parse: Parser, r: Router) returns (d: Option<RouterDefect>)
    ensures d.None? ==> r.name == "" || RouterOk(parse, r)
    ensures d.Some? ==> HasRouterDefect(parse, r, d.value)
  {
    if r.address == "" { return Some(NoAddress); }
    if r.username == "" { return Some(NoUsername); }
    if r.passwordFile == "" && r.privateKeyFile == "" { return Some(NoCredential); }
    if r.knownHosts == "" && !r.insecureSkipHostKey { return Some(NoKnownHosts); }
    if r.sessions < 1 { return Some(TooFewSessions); }
    if |r.links| == 0 { return Some(Linkless); }
    var seen: set<string> := {};
    for j := 0 to |r.links|
      invariant forall name :: name in seen <==> exists i :: 0 <= i < j && r.links[i].name == name
      invariant forall i :: 0 <= i < j ==> LinkOk(parse, r.links[i])
      invariant forall i, k :: 0 <= i < k < j ==> r.links[i].name != r.links[k].name
    {
      var l := r.links[j];
      if l.name == "" { return Some(NamelessLink); }
      if l.name in seen { return Some(DuplicateLink(l.name)); }
      seen := seen + {l.name};
      var problem := LinkProblem(parse, l);
      if problem.Some? { return Some(InLink(l.name, problem.value)); }
    }
    return None;
  }

  lemma ReachesSelected(r: Router, tg: TargetGroup, v6: bool)
    ensures AnySource(Selected(r.links, tg.links), v6) <==> Reaches(r, tg, v6)
  {
    if AnySource(Selected(r.links, tg.links), v6) {
      var l :| l in Selected(r.links, tg.links) && SourceFor(l, v6) != "";
      var j :| 0 <= j < |r.links| && r.links[j] == l;
    }
    if Reaches(r, tg, v6) {
      var j :| 0 <= j < |r.links| && Eligible(r.links[j], tg.links) && SourceFor(r.links[j], v6) != "";
      assert r.links[j] in Selected(r.links, tg.links);
    }
  }

  /** The body of the loop over the target groups, for a group with a router. */
  method ValidateGroup(parse: Parser, r: Router, tg: TargetGroup) returns (d: Option<GroupDefect>)
    ensures d.None? ==> RoutedGroupOk(parse, r, tg)
    ensures d.Some? ==> !d.value.NeedsRouter? && !d.value.UnknownRouter? && HasGroupDefect(parse, r, tg, d.value)
  {
    if tg.source != "" { return Some(OwnSource); }
    if tg.network != "ip" && tg.network != "ip4" && tg.network != "ip6" { return Some(BadNetwork); }
    if tg.count < 1 { return Some(TooFew); }
    if tg.interval <= 0 { return Some(BadInterval); }
    if tg.localInterval <= 0 { return Some(BadLocalInterval); }
    for k := 0 to |tg.links|
      invariant forall i :: 0 <= i < k ==> HasLink(r, tg.links[i])
    {
      if !exists l :: l in r.links && l.name == tg.links[k] {
        assert forall j :: 0 <= j < |r.links| ==> r.links[j] in r.links;
        return Some(UnknownLink(tg.links[k]));
      }
    }
    var links := SelectLinks(r, tg.links);
    ReachesSelected(r, tg, true);
    ReachesSelected(r, tg, false);
    if tg.network == "ip6" && !AnySource(links, true) { return Some(NoSource6); }
    if tg.network == "ip4" && !AnySource(links, false) { return Some(NoSource4); }
    if tg.network == "ip" {
      for k := 0 to |tg.hosts|
        invariant forall i :: 0 <= i < k && parse(tg.hosts[i]).Some? ==> Reaches(r, tg, !parse(tg.hosts[i]).value.v4)
      {
        var ip := parse(tg.hosts[k]);
        if ip.None? { continue; }
        if !ip.value.v4 {
          if !AnySource(links, true) { return Some(Host6Unreachable(tg.hosts[k])); }
        } else if !AnySource(links, false) {
          return Some(Host4Unreachable(tg.hosts[k]));
        }
      }
    }
    return None;
  }

  /** The map the first loop fills: the routers so far by name. */
  ghost predicate ByName(routers: seq<Router>, m: map<string, Router>) {
    && (forall i :: 0 <= i < |routers| ==> routers[i].name in m)
    && (forall name :: name in m ==> exists i :: IsRouterOf(routers, i, name) && m[name] == routers[i])
  }

  /** The first loop of Validate. */
  method ValidateRouters(parse: Parser, c: Config) returns (e: Option<ConfigError>, routers: map<string, Router>)
    ensures e.None? ==> forall i :: 0 <= i < |c.routers| ==> RouterOk(parse, c.routers[i])
    ensures e.None? ==> forall i, j :: 0 <= i < j < |c.routers| ==> c.routers[i].name != c.routers[j].name
    ensures e.None? ==> ByName(c.routers, routers)
    ensures e.Some? ==> HasDefect(parse, c, e.value) && !e.value.InGroup?
  {
    hide RouterOk, HasRouterDefect, ByName;
    routers := map[];
    NothingByName();
    for i := 0 to |c.routers|
      invariant forall k :: 0 <= k < i ==> RouterOk(parse, c.routers[k])
      invariant forall k, j :: 0 <= k < j < i ==> c.routers[k].name != c.routers[j].name
      invariant ByName(c.routers[..i], routers)
    {
      var r := c.routers[i];
      assert IsRouterOf(c.routers, i, r.name);
      if r.name == "" { return Some(NamelessRouter(i)), routers; }
      ByNameTells(c.routers, i, routers, r.name);
      if r.name in routers {
        return Some(DuplicateRouter(r.name)), routers;
      }
      var d := ValidateRouter(parse, r);
      if d.Some? { return Some(InRouter(r.name, d.value)), routers; }
      ByNameGrows(c.routers, i, routers);
      routers := routers[r.name := r];
    }
    assert c.routers[..|c.routers|] == c.routers;
    return None, routers;
  }

  lemma NothingByName()
    ensures ByName([], map[])
  {}

  lemma ByNameTells(routers: seq<Router>, n: nat, m: map<string, Router>, name: string)
    requires n <= |routers| && ByName(routers[..n], m)
    ensures name in m ==> exists i :: 0 <= i < n && IsRouterOf(routers, i, name)
    ensures name !in m ==> forall i :: 0 <= i < n ==> routers[i].name != name
  {
    if name in m {
      var i :| IsRouterOf(routers[..n], i, name);
      assert IsRouterOf(routers, i, name);
    }
    forall i | 0 <= i < n ensures routers[i].name in m {
      assert routers[..n][i].name in m;
    }
  }

  lemma ByNameGrows(routers: seq<Router>, n: nat, m: map<string, Router>)
    requires n < |routers| && ByName(routers[..n], m) && routers[n].name !in m
    ensures ByName(routers[..n + 1], m[routers[n].name := routers[n]])
  {
    var grown, more := m[routers[n].name := routers[n]], routers[..n + 1];
    forall i | 0 <= i < |more| ensures more[i].name in grown {
      if i < n {
        assert more[i] == routers[..n][i];
      }
    }
    forall name | name in grown ensures exists i :: IsRouterOf(more, i, name) && grown[name] == more[i] {
      if name == routers[n].name {
        assert IsRouterOf(more, n, name);
      } else {
        var i :| IsRouterOf(routers[..n], i, name) && m[name] == routers[..n][i];
        assert IsRouterOf(more, i, name);
      }
    }
  }

  /** Config.Validate: None exactly for the well-formed configurations; otherwise
      the error names a defect that is really there. A group is blamed only when
      the routers and all the groups before it are all right. */
  method Validate(parse: Parser, c: Config) returns (e: Option<ConfigError>)
    ensures e.None? <==> WellFormed(parse, c)
    ensures e.Some? ==> HasDefect(parse, c, e.value)
    ensures e.Some? && e.value.InGroup? ==> WellFormed(parse, Config(c.routers, c.targets[..e.value.k]))
  {
    hide RouterOk, RoutedGroupOk, HasGroupDefect, HasRouterDefect;
    var routers;
    e, routers := ValidateRouters(parse, c);
    if e.Some? {
      DefectIsWrong(parse, c, e.value);
      return;
    }
    for k := 0 to |c.targets|
      invariant forall i :: 0 <= i < k ==> GroupOk(parse, c, c.targets[i])
    {
      var tg := c.targets[k];
      if tg.router == "" {
        if tg.count != 0 || tg.packetInterval != 0 || tg.timeout != 0 || tg.localInterval != 0 || |tg.links| != 0 {
          DefectIsWrong(parse, c, InGroup(k, NeedsRouter));
          return Some(InGroup(k, NeedsRouter));
        }
        continue;
      }
      if tg.router !in routers {
        assert forall i :: !IsRouterOf(c.routers, i, tg.router);
        DefectIsWrong(parse, c, InGroup(k, UnknownRouter));
        return Some(InGroup(k, UnknownRouter));
      }
      var d := ValidateGroup(parse, routers[tg.router], tg);
      if d.Some? {
        DefectIsWrong(parse, c, InGroup(k, d.value));
        return Some(InGroup(k, d.value));
      }
    }
    return None;
  }

  // ---- Errors and well-formedness are exact opposites --------------------------------------

  lemma RouterDefectIsWrong(parse: Parser, r: Router, d: RouterDefect)
    requires HasRouterDefect(parse, r, d)
    ensures !RouterOk(parse, r)
  {}

  lemma GroupDefectIsWrong(parse: Parser, r: Router, tg: TargetGroup, d: GroupDefect)
    requires !d.NeedsRouter? && !d.UnknownRouter? && HasGroupDefect(parse, r, tg, d)
    ensures !RoutedGroupOk(parse, r, tg)
  {
    match d
    case UnknownLink(name) =>
      var k :| 0 <= k < |tg.links| && tg.links[k] == name;
    case Host6Unreachable(host) =>
      var k :| 0 <= k < |tg.hosts| && tg.hosts[k] == host;
    case Host4Unreachable(host) =>
      var k :| 0 <= k < |tg.hosts| && tg.hosts[k] == host;
    case _ =>
  }

  lemma GroupErrorIsWrong(parse: Parser, c: Config, k: nat, gd: GroupDefect)
    requires HasDefect(parse, c, InGroup(k, gd))
    requires forall i, j :: 0 <= i < j < |c.routers| ==> c.routers[i].name != c.routers[j].name
    ensures !GroupOk(parse, c, c.targets[k])
  {
    hide RoutedGroupOk, HasGroupDefect;
    var tg := c.targets[k];
    if !gd.NeedsRouter? && !gd.UnknownRouter? {
      var i :| IsRouterOf(c.routers, i, tg.router) && HasGroupDefect(parse, c.routers[i], tg, gd);
      GroupDefectIsWrong(parse, c.routers[i], tg, gd);
    }
  }

  lemma DefectIsWrong(parse: Parser, c: Config, e: ConfigError)
    requires HasDefect(parse, c, e)
    ensures !WellFormed(parse, c)
  {
    hide RouterOk, HasRouterDefect, GroupOk, RoutedGroupOk, HasGroupDefect;
    match e
    case NamelessRouter(i) => NamelessIsWrong(parse, c.routers[i]);
    case DuplicateRouter(_) =>
    case InRouter(name, rd) =>
      var i :| IsRouterOf(c.routers, i, name) && HasRouterDefect(parse, c.routers[i], rd);
      RouterDefectIsWrong(parse, c.routers[i], rd);
    case InGroup(k, gd) =>
      if forall i, j :: 0 <= i < j < |c.routers| ==> c.routers[i].name != c.routers[j].name {
        GroupErrorIsWrong(parse, c, k, gd);
      }
  }

  lemma NamelessIsWrong(parse: Parser, r: Router)
    requires r.name == ""
    ensures !RouterOk(parse, r)
  {}

  // ---- Facts later code relies on without rechecking ----------------------------------------

  /** In a well-formed configuration the lookup of a group's router is a hit; it
      finds the only router of that name, and that router satisfies the group. */
  lemma GroupHasRouter(parse: Parser, c: Config, tg: TargetGroup)
    requires WellFormed(parse, c) && tg in c.targets && tg.router != ""
    ensures var r := NamedRouter(c.routers, tg.router);
            && r in c.routers && r.name == tg.router && RouterOk(parse, r) && RoutedGroupOk(parse, r, tg)
            && forall j :: IsRouterOf(c.routers, j, tg.router) ==> c.routers[j] == r
  {
    hide RouterOk, RoutedGroupOk, NamedRouter, GroupOk;
    var i := GroupsRouter(parse, c, tg);
    TheOnlyRouter(c.routers, i, tg.router);
  }

  lemma GroupsRouter(parse: Parser, c: Config, tg: TargetGroup) returns (i: nat)
    requires WellFormed(parse, c) && tg in c.targets && tg.router != ""
    ensures IsRouterOf(c.routers, i, tg.router) && RoutedGroupOk(parse, c.routers[i], tg)
  {
    hide RouterOk, RoutedGroupOk;
    var k :| 0 <= k < |c.targets| && c.targets[k] == tg;
    assert GroupOk(parse, c, c.targets[k]);
    i :| 0 <= i && IsRouterOf(c.routers, i, tg.router) && RoutedGroupOk(parse, c.routers[i], tg);
  }

  /** With unique names the first router of a name is the only one. */
  lemma TheOnlyRouter(routers: seq<Router>, i: nat, name: string)
    requires IsRouterOf(routers, i, name)
    requires forall j, k :: 0 <= j < k < |routers| ==> routers[j].name != routers[k].name
    ensures NamedRouter(routers, name) == routers[i]
    ensures forall j :: IsRouterOf(routers, j, name) ==> j == i
  {
    hide NamedRouter;
  }

  // ---- Defaults ---------------------------------------------------------------------------

  const DEFAULT_GROUP := TargetGroup([], "", SECOND, "ip", "icmp", 56, "", 0, map[], "", [], 0, 0, 0, 0)
  const NO_GROUP := TargetGroup([], "", 0, "", "", 0, "", 0, map[], "", [], 0, 0, 0, 0)
  const DEFAULT_REMOTE_INTERVAL := 60 * SECOND
  const DEFAULT_REMOTE_COUNT := 10
  const DEFAULT_REMOTE_PACKET_INTERVAL := 50 * MILLISECOND
  const DEFAULT_REMOTE_TIMEOUT := 500 * MILLISECOND

  /** `s` after its own decoding; `keys` are the keys the document has for it. */
  function Defaulted(s: TargetGroup, keys: set<string>): TargetGroup {
    var hosts := if s.host != "" && s.hosts == [] then [s.host] else s.hosts;
    if s.router == "" then s.(hosts := hosts)
    else
      s.(hosts := hosts,
         interval := if "interval" in keys then s.interval else DEFAULT_REMOTE_INTERVAL,
         count := if s.count == 0 then DEFAULT_REMOTE_COUNT else s.count,
         packetInterval := if s.packetInterval == 0 then DEFAULT_REMOTE_PACKET_INTERVAL else s.packetInterval,
         timeout := if s.timeout == 0 then DEFAULT_REMOTE_TIMEOUT else s.timeout,
         localInterval := if s.localInterval == 0 then DEFAULT_GROUP.interval else s.localInterval)
  }

  /** The part of TargetGroup.UnmarshalYAML that follows the decoding. */
  method ApplyDefaults(decoded: TargetGroup, keys: set<string>) returns (s: TargetGroup)
    ensures s == Defaulted(decoded, keys)
  {
    s := decoded;
    if s.host != "" && |s.hosts| == 0 {
      s := s.(hosts := [s.host]);
    }
    if s.router == "" {
      return s;
    }
    if "interval" !in keys {
      s := s.(interval := DEFAULT_REMOTE_INTERVAL);
    }
    if s.count == 0 {
      s := s.(count := DEFAULT_REMOTE_COUNT);
    }
    if s.packetInterval == 0 {
      s := s.(packetInterval := DEFAULT_REMOTE_PACKET_INTERVAL);
    }
    if s.timeout == 0 {
      s := s.(timeout := DEFAULT_REMOTE_TIMEOUT);
    }
    if s.localInterval == 0 {
      s := s.(localInterval := DEFAULT_GROUP.interval);
    }
  }

  /** What the defaults are: before decoding, one second, network `ip`, protocol `icmp` and
      56 bytes; after it, as follows. A single host becomes the list of hosts if there is none.
      Without a router nothing else changes; with one, a missing interval is a minute, and
      a zero counts as missing: ten packets, 50 ms apart, half a second to wait for each,
      and one second between the local pings. Everything else stays as it was decoded. */
  lemma DefaultsAre(s: TargetGroup, keys: set<string>)
    ensures DEFAULT_GROUP == NO_GROUP.(interval := 1_000_000_000, network := "ip", protocol := "icmp", size := 56)
    ensures var d := Defaulted(s, keys);
            && d.hosts == (if s.hosts == [] && s.host != "" then [s.host] else s.hosts)
            && (s.router == "" ==> d == s.(hosts := d.hosts))
            && (s.router != "" ==>
                  && d.interval == (if "interval" in keys then s.interval else 60_000_000_000)
                  && d.count == (if s.count != 0 then s.count else 10)
                  && d.packetInterval == (if s.packetInterval != 0 then s.packetInterval else 50_000_000)
                  && d.timeout == (if s.timeout != 0 then s.timeout else 500_000_000)
                  && d.localInterval == (if s.localInterval != 0 then s.localInterval else 1_000_000_000)
                  && d == s.(hosts := d.hosts, interval := d.interval, count := d.count,
                             packetInterval := d.packetInterval, timeout := d.timeout,
                             localInterval := d.localInterval))
  {}

  /** The defaults fill every gap and hide no mistake: a group through a router is
      accepted exactly when the numbers that were written down are sound, an
      explicit interval of 0 included, and the rest is. Defaulting twice changes
      nothing more. */
  lemma DefaultsAccepted(parse: Parser, r: Router, s: TargetGroup, keys: set<string>)
    requires s.router != ""
    ensures var d := Defaulted(s, keys);
            RoutedGroupOk(parse, r, d) <==>
            && s.count >= 0 && s.localInterval >= 0 && ("interval" in keys ==> s.interval > 0)
            && RoutedGroupOk(parse, r, d.(count := 1, interval := 1, localInterval := 1))
    ensures Defaulted(Defaulted(s, keys), keys) == Defaulted(s, keys)
  {
    var d := Defaulted(s, keys);
    var e := d.(count := 1, interval := 1, localInterval := 1);
    assert forall v6 :: Reaches(r, d, v6) <==> Reaches(r, e, v6);
  }

  // ---- Reload -----------------------------------------------------------------------------

  datatype FileError = Missing | Unreadable | Undecodable

  datatype ReloadError = BadFile(fe: FileError) | Invalid(ce: ConfigError)

  /** The configuration in use. It is well formed at all times. */
  class SafeConfig {
    const parse: Parser
    var c: Config
    var lastReloadSuccessful: bool

    ghost predicate Valid()
      reads this
    {
      WellFormed(parse, c)
    }

    constructor (parse: Parser)
      ensures Valid() && c == Config([], []) && this.parse == parse
    {
      this.parse := parse;
      c := Config([], []);
      lastReloadSuccessful := false;
    }

    /** `file` is what reading and decoding the file gives. A reload that fails
        leaves the configuration as it was. */
    method ReloadConfig(file: Result<Config, FileError>) returns (err: Option<ReloadError>)
      requires Valid()
      modifies this
      ensures Valid()
      ensures err.None? <==> file.Ok? && WellFormed(parse, file.value)
      ensures c == if err.None? then file.value else old(c)
      ensures lastReloadSuccessful == err.None?
    {
      if file.Err? {
        lastReloadSuccessful := false;
        return Some(BadFile(file.error));
      }
      var e := Validate(parse, file.value);
      if e.Some? {
        lastReloadSuccessful := false;
        return Some(Invalid(e.value));
      }
      c := file.value;
      lastReloadSuccessful := true;
      return None;
    }
  }
}
