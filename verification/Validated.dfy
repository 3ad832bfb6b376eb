/** What a validated configuration guarantees to the code behind it. */
module Validated {
  import opened Wrappers
  import opened Text
  import opened Huawei
  import opened Config
  import opened Targets

  function ResolverOf(parse: Parser, dns: Dns): Resolver {
    (host, network) => Resolved(parse, dns, host, network)
  }

  /** For a validated group, a literal host, or any host when the network fixes
      the family, fails only if it does not resolve; it never lacks a link. For a
      name on network "ip" the family comes from the resolver, and then a link may
      be missing. */
  lemma ValidatedHost(parse: Parser, dns: Dns, r: Router, tg: TargetGroup, host: string)
    requires RoutedGroupOk(parse, r, tg) && Respects(dns) && host in tg.hosts
    ensures var resolve := ResolverOf(parse, dns);
            Reachable(tg, r, resolve, host) <==>
              && resolve(host, tg.network).Some?
              && (parse(host).Some? || tg.network != "ip" || Reaches(r, tg, !resolve(host, tg.network).value.v4))
  {
    hide AnySource, Selected, Preferred, Reaches;
    ReachesSelected(r, tg, true);
    ReachesSelected(r, tg, false);
    var k :| 0 <= k < |tg.hosts| && tg.hosts[k] == host;
  }

  /** The family of a name on network "ip" is decided by the DNS answer: IPv4 if there
      is any IPv4 address in it, though a link may serve only an IPv6 one. */
  lemma ValidatedName(parse: Parser, dns: Dns, r: Router, tg: TargetGroup, host: string)
    requires RoutedGroupOk(parse, r, tg) && Respects(dns) && host in tg.hosts
    requires parse(host).None? && tg.network == "ip"
    ensures Reachable(tg, r, ResolverOf(parse, dns), host) <==>
              && dns(host, "ip").Some? && dns(host, "ip").value != []
              && Reaches(r, tg, forall ip :: ip in dns(host, "ip").value ==> !ip.v4)
  {
    hide Reaches, RoutedGroupOk, Reachable;
    ValidatedHost(parse, dns, r, tg, host);
    if dns(host, "ip").Some? {
      PreferredFamily(dns(host, "ip").value);
    }
  }

  lemma PreferredFamily(ips: seq<Address>)
    ensures Preferred(ips, "ip").None? <==> ips == []
    ensures ips != [] ==> (Preferred(ips, "ip").value.v4 <==> exists ip :: ip in ips && ip.v4)
  {}

  /** Building the targets of a validated group of literal hosts can fail only in
      Resolve. */
  lemma LiteralGroupsBuild(parse: Parser, dns: Dns, r: Router, tg: TargetGroup, e: BuildError)
    requires RoutedGroupOk(parse, r, tg) && Respects(dns)
    requires forall host :: host in tg.hosts ==> parse(host).Some?
    requires Explains(e, tg, r, ResolverOf(parse, dns))
    ensures e.Unresolved?
    ensures (tg.network == "ip4" && !parse(e.host).value.v4) || (tg.network == "ip6" && parse(e.host).value.v4)
    ensures e.host in tg.hosts
  {
    hide RoutedGroupOk, Reachable, Preferred;
    ValidatedHost(parse, dns, r, tg, e.host);
  }

  // ---- A name can still fail ---------------------------------------------------------

  const V4_SOURCE := "192.0.2.1"
  const V6_ADDRESS := "2001:db8::1"

  function SampleParse(s: string): Option<Address> {
    if s == V4_SOURCE then Some(Address(s, true)) else None
  }

  function SampleDns(host: string, network: string): Option<seq<Address>> {
    if network == "ip4" then None else Some([Address(V6_ADDRESS, false)])
  }

  const SAMPLE_ROUTER := Router("r1", "192.0.2.254:22", "probe", "pw", "", "hosts", false, 5,
      [Link("a", "", V4_SOURCE, "")])

  const SAMPLE_GROUP := TargetGroup(["example.org"], "", 60 * SECOND, "ip", "icmp", 56, "", 0, map[], "r1", [],
                                    10, 50 * MILLISECOND, 500 * MILLISECOND, SECOND)

  /** A valid configuration with a host name that turns out to have only IPv6
      addresses, and a router with only IPv4 links: the targets cannot be built. */
  lemma NamesCanLackALink()
    ensures WellFormed(SampleParse, Config([SAMPLE_ROUTER], [SAMPLE_GROUP])) && Respects(SampleDns)
    ensures Explains(NoLink("example.org"), SAMPLE_GROUP, SAMPLE_ROUTER, ResolverOf(SampleParse, SampleDns))
  {
    var c := Config([SAMPLE_ROUTER], [SAMPLE_GROUP]);
    assert LinkOk(SampleParse, SAMPLE_ROUTER.links[0]);
    assert "example.org" != V4_SOURCE by { assert |"example.org"| != |V4_SOURCE|; }
    assert RoutedGroupOk(SampleParse, SAMPLE_ROUTER, SAMPLE_GROUP);
    assert IsRouterOf(c.routers, 0, "r1");
    assert GroupOk(SampleParse, c, SAMPLE_GROUP);
    var resolve := ResolverOf(SampleParse, SampleDns);
    assert resolve("example.org", "ip") == Some(Address(V6_ADDRESS, false));
    ReachesSelected(SAMPLE_ROUTER, SAMPLE_GROUP, true);
    assert SAMPLE_GROUP.hosts[0] == "example.org";
  }

  // ---- Every target is fit for the scheduler and the command line ------------------------

  /** Addresses are written with hexadecimal digits, dots and colons. */
  predicate IsAddressChar(c: char) { IsDigit(c) || 'a' <= c <= 'f' || 'A' <= c <= 'F' || c == '.' || c == ':' }

  predicate IsAddressText(s: string) { s != "" && forall i :: 0 <= i < |s| ==> IsAddressChar(s[i]) }

  /** Words made of the characters of addresses and VPN instances. */
  predicate CleanText(s: string) {
    s != "" && forall i :: 0 <= i < |s| ==> IsLetter(s[i]) || IsDigit(s[i]) || s[i] in {'.', ':', '_', '-'}
  }

  lemma AddressIsClean(s: string)
    requires IsAddressText(s)
    ensures CleanText(s) && 'q' !in s && '(' !in s
  {}

  /** What is relied on of the parser and the resolver: what they accept as an
      address, and what they print for one, reads like an address. */
  ghost predicate CleanOracles(parse: Parser, dns: Dns) {
    && (forall s :: parse(s).Some? ==> IsAddressText(s) && IsAddressText(parse(s).value.text))
    && (forall host, network :: dns(host, network).Some? ==>
          forall ip :: ip in dns(host, network).value ==> IsAddressText(ip.text))
  }

  lemma CleanIsToken(s: string)
    requires CleanText(s)
    ensures IsToken(s)
  {}

  lemma VpnInstanceIsClean(s: string)
    requires IsVpnInstance(s)
    ensures CleanText(s)
  {}

  lemma ResolvedIsClean(parse: Parser, dns: Dns, host: string, network: string)
    requires CleanOracles(parse, dns) && Resolved(parse, dns, host, network).Some?
    ensures IsAddressText(Resolved(parse, dns, host, network).value.text)
  {
    hide IsAddressText;
  }

  lemma LinkIsFit(parse: Parser, dns: Dns, l: Link, v6: bool)
    requires CleanOracles(parse, dns) && LinkOk(parse, l) && SourceFor(l, v6) != ""
    ensures IsAddressText(SourceFor(l, v6)) && IsFamily(parse, SourceFor(l, v6), !v6)
    ensures l.name != "" && (l.vpnInstance == "" || CleanText(l.vpnInstance))
  {
    if l.vpnInstance != "" {
      VpnInstanceIsClean(l.vpnInstance);
    }
  }

  /** The string fields of the job are addresses, and a word for the VPN instance. */
  predicate CleanJob(j: Job) {
    IsAddressText(j.target) && IsAddressText(j.source) && (j.vpnInstance == "" || CleanText(j.vpnInstance))
  }

  lemma CleanIsPrintable(j: Job)
    requires CleanJob(j)
    ensures Printable(j)
  {
    hide IsToken, CleanText, IsAddressText;
    AddressIsClean(j.target);
    AddressIsClean(j.source);
    CleanIsToken(j.target);
    CleanIsToken(j.source);
    if j.vpnInstance != "" {
      CleanIsToken(j.vpnInstance);
    }
  }

  /** A target that the scheduler, the command printer and the session can work
      with. */
  ghost predicate Fit(parse: Parser, x: TargetInfo) {
    && x.link != "" && x.interval > 0 && x.job.count >= 1
    && CleanJob(x.job) && Printable(x.job)
    && IsFamily(parse, x.job.source, !x.job.ipv6)
  }

  /** Every target of a validated group has a positive interval for its ticker, a
      link name, a source of its own family, and string fields that each are a
      single word of the command line. */
  lemma TargetsAreFit(parse: Parser, dns: Dns, r: Router, tg: TargetGroup, x: TargetInfo)
    requires RouterOk(parse, r) && RoutedGroupOk(parse, r, tg) && CleanOracles(parse, dns)
    requires x in GroupTargets(tg, r, ResolverOf(parse, dns))
    ensures Fit(parse, x)
  {
    hide RoutedGroupOk, RouterOk, GroupTargets, Origins, InOrder, CleanOracles, LinkOk, CleanText, IsAddressText,
        IsFamily, Selected, SourceFor;
    var resolve, links := ResolverOf(parse, dns), Selected(r.links, tg.links);
    var xs, os := GroupTargets(tg, r, resolve), Origins(tg.network, links, tg.hosts, resolve);
    ProductInOrder(tg, r, resolve);
    var k :| 0 <= k < |xs| && xs[k] == x;
    assert From(tg, links, tg.hosts, resolve, x, os[k]);
    assert Wanted(tg.network, links, tg.hosts, resolve, os[k]);
    var ip := resolve(tg.hosts[os[k].host], tg.network).value;
    GroupNumbers(parse, r, tg);
    RouterLink(parse, r, links[os[k].link]);
    LinkIsFit(parse, dns, links[os[k].link], !ip.v4);
    ResolvedIsClean(parse, dns, tg.hosts[os[k].host], tg.network);
    CleanIsPrintable(x.job);
  }

  lemma GroupNumbers(parse: Parser, r: Router, tg: TargetGroup)
    requires RoutedGroupOk(parse, r, tg)
    ensures tg.interval > 0 && tg.count >= 1 && tg.localInterval > 0
  {}

  lemma RouterLink(parse: Parser, r: Router, l: Link)
    requires RouterOk(parse, r) && l in r.links
    ensures LinkOk(parse, l)
  {}
}
