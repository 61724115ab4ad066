/**
  Which addresses a connection routes through the tunnel. The service collects specs as
  text, hands them to netlink and reads them back for NetworkManager; the set of addresses
  matched at the end is the one the configuration and the gateway asked for.
 */
module RouteSpecs {
  import opened Wrappers
  import opened Bits
  import opened Decimal
  import opened Ipv4Text
  import opened IpRange
  import opened IpRoutes

  datatype Config = Config(
    noRouting: bool, defaultRoute: bool, setRoutingDomains: bool,
    dnsServers: seq<string>, ignoreDnsServers: seq<string>, addRoutes: seq<string>)

  datatype Range = Range(from: word, to: word)

  datatype HelloReply = HelloReply(
    ranges: seq<Range>, dnsServers: seq<string>, searchDomains: seq<string>)

  // ---- inferred private subnets ----

  /** `snx_ip4_private_subnet_route_for_host`, as the block it names. */
  function PrivateSubnet(a: word): Option<Cidr>
  {
    if And(a, 0xff00_0000) == 0x0a00_0000 then Some(Cidr(Network(a, 16), 16))
    else if And(a, 0xfff0_0000) == 0xac10_0000 then Some(Cidr(Network(a, 16), 16))
    else if And(a, 0xffff_0000) == 0xc0a8_0000 then Some(Cidr(Network(a, 24), 24))
    else None
  }

  function PrivateSubnetSpec(server: string): Option<string>
  {
    match Pton(server)
    case None => None
    case Some(a) =>
      match PrivateSubnet(a)
      case None => None
      case Some(b) => Some(PrintCidr(b))
  }

  const TEN_8: Cidr := Cidr(0x0a00_0000, 8)
  const SLASH_12: Cidr := Cidr(0xac10_0000, 12)
  const SLASH_16: Cidr := Cidr(0xc0a8_0000, 16)

  lemma InBlockByMask(a: word, b: Cidr, mask: nat)
    requires 0 < b.prefix && b.Valid(1) && mask == WORD - b.Size()
    ensures And(a, mask) == b.base <==> b.Contains(a)
  {
    hide And, Pow2, Multiple;
    MaskValue(b.prefix);
    NetworkContains(a, b.prefix);
    var n := Network(a, b.prefix);
    if b.Contains(a) && n < b.base {
      MultiplesAreApart(n, b.base, b.Exp());
    } else if b.Contains(a) && b.base < n {
      MultiplesAreApart(b.base, n, b.Exp());
    }
  }

  lemma PrivateBlocks()
    ensures TEN_8.Valid(1) && SLASH_12.Valid(1) && SLASH_16.Valid(1)
    ensures TEN_8.Size() == 0x100_0000 && SLASH_12.Size() == 0x10_0000 && SLASH_16.Size() == 0x1_0000
  {
    Pow2Values();
    MultipleIsMod(0x0a00_0000, 24);
    MultipleIsMod(0xac10_0000, 20);
    MultipleIsMod(0xc0a8_0000, 16);
  }

  /**
    A subnet is inferred exactly for the private addresses of section 3 of RFC 1918; it
    contains the host and stays inside its private block.
   */
  lemma PrivateSubnetMeaning(a: word)
    ensures PrivateSubnet(a).Some? <==> TEN_8.Contains(a) || SLASH_12.Contains(a) || SLASH_16.Contains(a)
    ensures PrivateSubnet(a).Some? ==> PrivateSubnet(a).value.Valid(16) && PrivateSubnet(a).value.Contains(a)
    ensures PrivateSubnet(a).Some? ==> PrivateSubnet(a).value.prefix == if SLASH_16.Contains(a) then 24 else 16
  {
    hide And, Network;
    PrivateBlocks();
    InBlockByMask(a, TEN_8, 0xff00_0000);
    InBlockByMask(a, SLASH_12, 0xfff0_0000);
    InBlockByMask(a, SLASH_16, 0xffff_0000);
    NetworkContains(a, 16);
    NetworkContains(a, 24);
  }

  // ---- the collectors ----

  function AddMissing(specs: seq<string>, more: seq<string>): seq<string>
    decreases |more|
  {
    if more == [] then specs
    else
      var init := AddMissing(specs, more[..|more| - 1]);
      var last := more[|more| - 1];
      if last in init then init else init + [last]
  }

  /** The specs a server list stands for, given what one server stands for. */
  function SpecsOf(spec: string -> Option<string>, servers: seq<string>, ignored: seq<string>): seq<string>
  {
    if servers == [] then []
    else
      var init := SpecsOf(spec, servers[..|servers| - 1], ignored);
      var last := servers[|servers| - 1];
      if last in ignored || spec(last).None? then init else init + [spec(last).value]
  }

  const HostSpec: string -> Option<string> := (server: string) => Some(server + "/32")
  const SubnetSpec: string -> Option<string> := (server: string) => PrivateSubnetSpec(server)

  lemma AddMissingStep(specs: seq<string>, more: seq<string>, last: string)
    ensures AddMissing(specs, more + [last])
            == var init := AddMissing(specs, more); if last in init then init else init + [last]
  {
    assert (more + [last])[..|more|] == more;
  }

  lemma NoServers(specs: seq<string>, spec: string -> Option<string>, ignored: seq<string>)
    ensures AddMissing(specs, SpecsOf(spec, [], ignored)) == specs
  {
  }

  lemma SpecsStep(spec: string -> Option<string>, servers: seq<string>, i: nat, ignored: seq<string>)
    requires i < |servers|
    ensures SpecsOf(spec, servers[..i + 1], ignored)
            == var init, last := SpecsOf(spec, servers[..i], ignored), servers[i];
               if last in ignored || spec(last).None? then init else init + [spec(last).value]
  {
    assert servers[..i + 1][..i] == servers[..i];
  }

  /**
    `append_dns_route_specs` and `append_private_dns_subnet_route_specs`: one loop, which
    skips ignored servers, servers without a spec, and specs that are already listed.
   */
  method AppendSpecs(specs: seq<string>, spec: string -> Option<string>, servers: seq<string>, ignored: seq<string>)
    returns (out: seq<string>)
    ensures out == AddMissing(specs, SpecsOf(spec, servers, ignored))
  {
    hide SpecsOf, AddMissing;
    out := specs;
    NoServers(specs, spec, ignored);
    var i := 0;
    while i < |servers|
      invariant 0 <= i <= |servers|
      invariant out == AddMissing(specs, SpecsOf(spec, servers[..i], ignored))
    {
      var server := servers[i];
      SpecsStep(spec, servers, i, ignored);
      if server !in ignored {
        var s := spec(server);
        if s.Some? {
          AddMissingStep(specs, SpecsOf(spec, servers[..i], ignored), s.value);
          if s.value !in out {
            out := out + [s.value];
          }
        }
      }
      i := i + 1;
    }
    assert servers[..i] == servers;
  }

  function GatewaySpecs(show: Cidr -> string, ranges: seq<Range>): seq<string>
  {
    if ranges == [] then []
    else
      var r := ranges[|ranges| - 1];
      GatewaySpecs(show, ranges[..|ranges| - 1]) + Map(show, Blocks(CAP, r.from, r.to + 1))
  }

  predicate SplitRouting(config: Config) { !config.noRouting && !config.defaultRoute }

  predicate InfersSubnets(config: Config, reply: HelloReply)
  {
    config.setRoutingDomains && reply.searchDomains != []
  }

  function DnsSpecs(spec: string -> Option<string>, config: Config, reply: HelloReply): seq<string>
  {
    SpecsOf(spec, reply.dnsServers, config.ignoreDnsServers)
    + SpecsOf(spec, config.dnsServers, config.ignoreDnsServers)
  }

  /** The collected list, in order. */
  function Collected(config: Config, reply: HelloReply): seq<string>
  {
    var split := if !SplitRouting(config) then [] else
      var gateway := GatewaySpecs(PrintCidr, reply.ranges);
      var subnets := if InfersSubnets(config, reply) then AddMissing(gateway, DnsSpecs(SubnetSpec, config, reply))
                     else gateway;
      AddMissing(subnets, DnsSpecs(HostSpec, config, reply));
    split + config.addRoutes
  }

  lemma {:induction false} AddMissingTwice(specs: seq<string>, a: seq<string>, b: seq<string>)
    ensures AddMissing(AddMissing(specs, a), b) == AddMissing(specs, a + b)
    decreases |b|
  {
    if b == [] {
      assert a + b == a;
    } else {
      var init := b[..|b| - 1];
      AddMissingTwice(specs, a, init);
      assert a + b == (a + init) + [b[|b| - 1]];
      AddMissingStep(specs, a + init, b[|b| - 1]);
    }
  }

  method AppendGatewaySpecs(show: Cidr -> string, ranges: seq<Range>) returns (specs: seq<string>)
    ensures specs == GatewaySpecs(show, ranges)
  {
    specs := [];
    var i := 0;
    while i < |ranges|
      invariant 0 <= i <= |ranges|
      invariant specs == GatewaySpecs(show, ranges[..i])
    {
      var cidrs := RangeToCidrs(show, ranges[i].from, ranges[i].to);
      assert ranges[..i + 1][..i] == ranges[..i];
      specs := specs + cidrs;
      i := i + 1;
    }
    assert ranges[..i] == ranges;
  }

  /** `collect_route_specs`. */
  method CollectRouteSpecs(config: Config, reply: HelloReply) returns (specs: seq<string>)
    ensures specs == Collected(config, reply)
  {
    hide PrivateSubnetSpec;
    specs := [];
    var ignored := config.ignoreDnsServers;
    if !config.noRouting && !config.defaultRoute {
      specs := AppendGatewaySpecs(PrintCidr, reply.ranges);
    }
    if !config.noRouting && !config.defaultRoute {
      if config.setRoutingDomains && |reply.searchDomains| > 0 {
        AddMissingTwice(specs, SpecsOf(SubnetSpec, reply.dnsServers, ignored),
                        SpecsOf(SubnetSpec, config.dnsServers, ignored));
        specs := AppendSpecs(specs, SubnetSpec, reply.dnsServers, ignored);
        specs := AppendSpecs(specs, SubnetSpec, config.dnsServers, ignored);
      }
      AddMissingTwice(specs, SpecsOf(HostSpec, reply.dnsServers, ignored),
                      SpecsOf(HostSpec, config.dnsServers, ignored));
      specs := AppendSpecs(specs, HostSpec, reply.dnsServers, ignored);
      specs := AppendSpecs(specs, HostSpec, config.dnsServers, ignored);
    }
    specs := specs + config.addRoutes;
  }

  // ---- what the list means ----

  ghost predicate Matches(spec: string, x: int)
  {
    ParseRouteSpec(spec).Some? && ParseRouteSpec(spec).value.Contains(x)
  }

  ghost predicate SomeMatches(specs: seq<string>, x: int)
  {
    exists spec :: spec in specs && Matches(spec, x)
  }

  /** The DNS servers the connection uses. */
  ghost predicate UsedServer(config: Config, reply: HelloReply, server: string)
  {
    server in reply.dnsServers + config.dnsServers && server !in config.ignoreDnsServers
  }

  ghost predicate InGatewayRange(ranges: seq<Range>, x: int)
  {
    exists r :: r in ranges && r.from <= x <= r.to
  }

  ghost predicate ServerAt(server: string, x: int) { Pton(server).Some? && Pton(server).value == x }

  ghost predicate ServerSubnetHas(server: string, x: int)
  {
    && Pton(server).Some?
    && PrivateSubnet(Pton(server).value).Some?
    && PrivateSubnet(Pton(server).value).value.Contains(x)
  }

  /** The addresses the configuration and the gateway ask for. */
  ghost predicate Wanted(config: Config, reply: HelloReply, x: int)
  {
    || (!config.noRouting && !config.defaultRoute
        && (|| InGatewayRange(reply.ranges, x)
            || (exists server :: UsedServer(config, reply, server) && ServerAt(server, x))
            || (config.setRoutingDomains && |reply.searchDomains| > 0
                && exists server :: UsedServer(config, reply, server) && ServerSubnetHas(server, x))))
    || SomeMatches(config.addRoutes, x)
  }

  lemma {:induction false} InAddMissing(specs: seq<string>, more: seq<string>)
    ensures forall s :: s in AddMissing(specs, more) <==> s in specs || s in more
    decreases |more|
  {
    if more != [] {
      InAddMissing(specs, more[..|more| - 1]);
      assert more == more[..|more| - 1] + [more[|more| - 1]];
    }
  }

  ghost predicate FromServer(spec: string -> Option<string>, servers: seq<string>, ignored: seq<string>, s: string)
  {
    exists server :: server in servers && server !in ignored && spec(server) == Some(s)
  }

  lemma {:induction false} InSpecsOf(spec: string -> Option<string>, servers: seq<string>, ignored: seq<string>)
    ensures forall s :: s in SpecsOf(spec, servers, ignored) <==> FromServer(spec, servers, ignored, s)
    decreases |servers|
  {
    if servers != [] {
      var init, last := servers[..|servers| - 1], servers[|servers| - 1];
      InSpecsOf(spec, init, ignored);
      forall s ensures s in SpecsOf(spec, servers, ignored) <==> FromServer(spec, servers, ignored, s) {
        assert servers == init + [last];
        if last !in ignored && spec(last) == Some(s) {
          assert FromServer(spec, servers, ignored, s);
        }
        if FromServer(spec, init, ignored, s) {
          var server :| server in init && server !in ignored && spec(server) == Some(s);
          assert server in servers;
        }
      }
    }
  }

  lemma {:induction false} InGatewaySpecs(show: Cidr -> string, ranges: seq<Range>)
    ensures forall s :: s in GatewaySpecs(show, ranges)
                        <==> exists r :: r in ranges && s in Map(show, Blocks(CAP, r.from, r.to + 1))
    decreases |ranges|
  {
    if ranges != [] {
      var init, last := ranges[..|ranges| - 1], ranges[|ranges| - 1];
      InGatewaySpecs(show, init);
      assert ranges == init + [last];
    }
  }

  /** Every spec parses, and netlink reads the same network and prefix from it. */
  ghost predicate Agreed(specs: seq<string>)
  {
    forall s :: s in specs ==> ParseRouteSpec(s).Some? && NetlinkRoute(s) == ParseRouteSpec(s)
  }

  lemma GatewayMatches(ranges: seq<Range>)
    ensures Agreed(GatewaySpecs(PrintCidr, ranges))
    ensures forall x :: SomeMatches(GatewaySpecs(PrintCidr, ranges), x) <==> InGatewayRange(ranges, x)
  {
    var specs := GatewaySpecs(PrintCidr, ranges);
    InGatewaySpecs(PrintCidr, ranges);
    hide ParseRouteSpec, NetlinkRoute;
    forall s | s in specs ensures ParseRouteSpec(s).Some? && NetlinkRoute(s) == ParseRouteSpec(s) {
      var r :| r in ranges && s in Map(PrintCidr, Blocks(CAP, r.from, r.to + 1));
      var b := SpecBlock(CAP, r, s);
    }
    forall x ensures SomeMatches(specs, x) <==> InGatewayRange(ranges, x) {
      if SomeMatches(specs, x) {
        var s :| s in specs && Matches(s, x);
        var r :| r in ranges && s in Map(PrintCidr, Blocks(CAP, r.from, r.to + 1));
        var b := SpecBlock(CAP, r, s);
      }
      if InGatewayRange(ranges, x) {
        var r :| r in ranges && r.from <= x <= r.to;
        var b := BlockAt(CAP, r, x);
        assert PrintCidr(b) in specs && Matches(PrintCidr(b), x);
      }
    }
  }

  /** A spec printed for a gateway range stands for a block inside that range. */
  lemma SpecBlock(cap: nat, r: Range, s: string) returns (b: Cidr)
    requires cap <= 32 && s in Map(PrintCidr, Blocks(cap, r.from, r.to + 1))
    ensures ParseRouteSpec(s) == NetlinkRoute(s) == Some(b)
    ensures forall x :: b.Contains(x) ==> r.from <= x <= r.to
  {
    hide ParseRouteSpec, NetlinkRoute, Ntop, Blocks, Map;
    InMap(PrintCidr, Blocks(cap, r.from, r.to + 1));
    b :| b in Blocks(cap, r.from, r.to + 1) && PrintCidr(b) == s;
    BasesInRange(cap, r.from, r.to + 1);
    BlockThroughText(b);
  }

  lemma BlockAt(cap: nat, r: Range, x: int) returns (b: Cidr)
    requires cap <= 32 && r.from <= x <= r.to
    ensures PrintCidr(b) in Map(PrintCidr, Blocks(cap, r.from, r.to + 1))
    ensures ParseRouteSpec(PrintCidr(b)) == Some(b) && b.Contains(x)
  {
    hide ParseRouteSpec, NetlinkRoute, Ntop;
    var bs := Blocks(cap, r.from, r.to + 1);
    ExactPartition(cap, r.from, r.to + 1);
    assert Covered(bs, x);
    var i :| 0 <= i < |bs| && bs[i].Contains(x);
    b := bs[i];
    InMap(PrintCidr, bs);
    BasesInRange(cap, r.from, r.to + 1);
    assert b in bs;
    BlockThroughText(b);
  }

  lemma HostMatches(server: string)
    requires Pton(server).Some?
    ensures var spec := HostSpec(server).value;
            && ParseRouteSpec(spec) == NetlinkRoute(spec) == Some(Cidr(Pton(server).value, 32))
            && forall x :: Matches(spec, x) <==> ServerAt(server, x)
  {
    hide ParseRouteSpec, NetlinkRoute, Pton, Network, Dec;
    var a := Pton(server).value;
    PrintedSpec(server, a, 32);
    Dec32();
    assert server + "/" + "32" == server + "/32";
    NetworkContains(a, 32);
  }

  lemma Dec32()
    ensures Dec(32) == "32"
  {
    assert Dec(32) == Dec(3) + [DigitChar(2)];
  }

  lemma SubnetMatches(server: string)
    requires SubnetSpec(server).Some?
    ensures var spec := SubnetSpec(server).value;
            && ParseRouteSpec(spec).Some? && NetlinkRoute(spec) == ParseRouteSpec(spec)
            && forall x :: Matches(spec, x) <==> ServerSubnetHas(server, x)
  {
    hide ParseRouteSpec, NetlinkRoute, Pton, Network, Ntop;
    PrivateSubnetMeaning(Pton(server).value);
    BlockThroughText(PrivateSubnet(Pton(server).value).value);
  }

  lemma HostSpecsMatch(config: Config, reply: HelloReply)
    requires forall server :: UsedServer(config, reply, server) ==> Pton(server).Some?
    ensures Agreed(DnsSpecs(HostSpec, config, reply))
    ensures forall x :: SomeMatches(DnsSpecs(HostSpec, config, reply), x)
                        <==> exists server :: UsedServer(config, reply, server) && ServerAt(server, x)
  {
    var specs := DnsSpecs(HostSpec, config, reply);
    InDnsSpecs(HostSpec, config, reply);
    hide ParseRouteSpec, NetlinkRoute, Pton;
    forall s | s in specs ensures ParseRouteSpec(s).Some? && NetlinkRoute(s) == ParseRouteSpec(s) {
      var server :| UsedServer(config, reply, server) && HostSpec(server) == Some(s);
      HostMatches(server);
    }
    forall x ensures SomeMatches(specs, x)
                     <==> exists server :: UsedServer(config, reply, server) && ServerAt(server, x)
    {
      if SomeMatches(specs, x) {
        var s :| s in specs && Matches(s, x);
        var server :| UsedServer(config, reply, server) && HostSpec(server) == Some(s);
        HostMatches(server);
        assert ServerAt(server, x);
      }
      if server :| UsedServer(config, reply, server) && ServerAt(server, x) {
        HostMatches(server);
        assert HostSpec(server) == Some(HostSpec(server).value);
        assert HostSpec(server).value in specs;
      }
    }
  }

  lemma SubnetSpecsMatch(config: Config, reply: HelloReply)
    ensures Agreed(DnsSpecs(SubnetSpec, config, reply))
    ensures forall x :: SomeMatches(DnsSpecs(SubnetSpec, config, reply), x)
                        <==> exists server :: UsedServer(config, reply, server) && ServerSubnetHas(server, x)
  {
    var specs := DnsSpecs(SubnetSpec, config, reply);
    InDnsSpecs(SubnetSpec, config, reply);
    hide ParseRouteSpec, NetlinkRoute, Pton;
    forall s | s in specs ensures ParseRouteSpec(s).Some? && NetlinkRoute(s) == ParseRouteSpec(s) {
      var server :| UsedServer(config, reply, server) && SubnetSpec(server) == Some(s);
      SubnetMatches(server);
    }
    forall x ensures SomeMatches(specs, x)
                     <==> exists server :: UsedServer(config, reply, server) && ServerSubnetHas(server, x)
    {
      if SomeMatches(specs, x) {
        var s :| s in specs && Matches(s, x);
        var server :| UsedServer(config, reply, server) && SubnetSpec(server) == Some(s);
        SubnetMatches(server);
        assert ServerSubnetHas(server, x);
      }
      if server :| UsedServer(config, reply, server) && ServerSubnetHas(server, x) {
        assert SubnetSpec(server).Some?;
        SubnetMatches(server);
        assert SubnetSpec(server).value in specs;
      }
    }
  }

  lemma InDnsSpecs(spec: string -> Option<string>, config: Config, reply: HelloReply)
    ensures forall s :: s in DnsSpecs(spec, config, reply)
                        <==> exists server :: UsedServer(config, reply, server) && spec(server) == Some(s)
  {
    var ignored := config.ignoreDnsServers;
    InSpecsOf(spec, reply.dnsServers, ignored);
    InSpecsOf(spec, config.dnsServers, ignored);
    forall s ensures s in DnsSpecs(spec, config, reply)
                     <==> exists server :: UsedServer(config, reply, server) && spec(server) == Some(s)
    {
      if FromServer(spec, reply.dnsServers, ignored, s) {
        var server :| server in reply.dnsServers && server !in ignored && spec(server) == Some(s);
        assert UsedServer(config, reply, server);
      }
      if FromServer(spec, config.dnsServers, ignored, s) {
        var server :| server in config.dnsServers && server !in ignored && spec(server) == Some(s);
        assert UsedServer(config, reply, server);
      }
    }
  }

  // ---- the main result ----

  lemma SomeMatchesUnion(all: seq<string>, a: seq<string>, b: seq<string>)
    requires forall s :: s in all <==> s in a || s in b
    ensures forall x :: SomeMatches(all, x) <==> SomeMatches(a, x) || SomeMatches(b, x)
    ensures Agreed(a) && Agreed(b) ==> Agreed(all)
  {
    hide ParseRouteSpec, NetlinkRoute;
  }

  /** The specs the service generates itself. */
  lemma GeneratedSpecs(config: Config, reply: HelloReply)
    requires SplitRouting(config)
    requires forall server :: UsedServer(config, reply, server) ==> Pton(server).Some?
    ensures var own := Collected(config.(addRoutes := []), reply);
            && Agreed(own)
            && forall x :: SomeMatches(own, x) <==> Wanted(config.(addRoutes := []), reply, x)
  {
    hide ParseRouteSpec, NetlinkRoute, PrintCidr, HostSpec, SubnetSpec, Pton, PrivateSubnet;
    var gateway := GatewaySpecs(PrintCidr, reply.ranges);
    GatewayMatches(reply.ranges);
    var subnets := gateway;
    if InfersSubnets(config, reply) {
      var more := DnsSpecs(SubnetSpec, config, reply);
      subnets := AddMissing(gateway, more);
      InAddMissing(gateway, more);
      SomeMatchesUnion(subnets, gateway, more);
      SubnetSpecsMatch(config, reply);
    }
    var hosts := DnsSpecs(HostSpec, config, reply);
    InAddMissing(subnets, hosts);
    SomeMatchesUnion(AddMissing(subnets, hosts), subnets, hosts);
    HostSpecsMatch(config, reply);
    var plain := config.(addRoutes := []);
    assert forall server :: UsedServer(plain, reply, server) <==> UsedServer(config, reply, server);
    assert Collected(plain, reply) == AddMissing(subnets, hosts);
    assert forall x :: !SomeMatches([], x);
  }

  lemma {:induction false} RoutesFromMatches(specs: seq<string>)
    ensures RoutesFrom(specs).Some? <==> forall s :: s in specs ==> ParseRouteSpec(s).Some?
    ensures RoutesFrom(specs).Some?
            ==> forall x :: (exists r :: r in RoutesFrom(specs).value && r.Contains(x)) <==> SomeMatches(specs, x)
    decreases |specs|
  {
    hide ParseRouteSpec;
    if specs != [] {
      var init, last := specs[..|specs| - 1], specs[|specs| - 1];
      RoutesFromMatches(init);
      assert specs == init + [last];
      if RoutesFrom(specs).Some? {
        var r := ParseRouteSpec(last).value;
        var earlier := RoutesFrom(init).value;
        assert RoutesFrom(specs).value == earlier + [r];
        SomeMatchesUnion(specs, init, [last]);
        forall x ensures (exists q :: q in earlier + [r] && q.Contains(x)) <==> SomeMatches(specs, x) {
          assert SomeMatches([last], x) <==> Matches(last, x);
          assert r in earlier + [r];
          if SomeMatches(init, x) {
            var q :| q in earlier && q.Contains(x);
            assert q in earlier + [r];
          }
        }
      }
    }
  }

  /**
    The routes handed to NetworkManager match exactly the addresses asked for: the gateway's
    ranges, the DNS servers in use, their private subnets where those are inferred, and the
    user's own routes. Routing succeeds whenever the addresses and routes given are valid.
   */
  lemma RouteSet(config: Config, reply: HelloReply)
    requires forall server :: SplitRouting(config) && UsedServer(config, reply, server) ==> Pton(server).Some?
    requires forall s :: s in config.addRoutes ==> ParseRouteSpec(s).Some?
    ensures RoutesFrom(Collected(config, reply)).Some?
    ensures forall x :: (exists r :: r in RoutesFrom(Collected(config, reply)).value && r.Contains(x))
                        <==> Wanted(config, reply, x)
  {
    hide ParseRouteSpec, NetlinkRoute, PrintCidr, HostSpec, SubnetSpec, Pton, PrivateSubnet;
    var plain := config.(addRoutes := []);
    var own := Collected(plain, reply);
    var all := Collected(config, reply);
    assert all == own + config.addRoutes;
    assert forall x :: !SomeMatches([], x);
    if SplitRouting(config) {
      GeneratedSpecs(config, reply);
    } else {
      assert own == [];
    }
    SomeMatchesUnion(all, own, config.addRoutes);
    RoutesFromMatches(all);
    WantedSplits(config, reply);
  }

  lemma WantedSplits(config: Config, reply: HelloReply)
    ensures var plain := config.(addRoutes := []);
            forall x :: Wanted(config, reply, x) <==> Wanted(plain, reply, x) || SomeMatches(config.addRoutes, x)
  {
    hide ParseRouteSpec, Pton, PrivateSubnet;
    var plain := config.(addRoutes := []);
    assert forall server :: UsedServer(plain, reply, server) <==> UsedServer(config, reply, server);
  }

  /**
    Both readers agree on every spec the service generates itself, also when the user has
    listed it too: the list with the user's routes is the generated one with these behind it.
   */
  lemma GeneratedSpecsAgree(config: Config, reply: HelloReply, spec: string)
    requires forall server :: SplitRouting(config) && UsedServer(config, reply, server) ==> Pton(server).Some?
    ensures var own := Collected(config.(addRoutes := []), reply);
            && Collected(config, reply) == own + config.addRoutes
            && (spec in own ==> ParseRouteSpec(spec).Some? && NetlinkRoute(spec) == ParseRouteSpec(spec))
  {
    hide ParseRouteSpec, NetlinkRoute, PrintCidr, HostSpec, SubnetSpec, Pton, PrivateSubnet;
    if SplitRouting(config) {
      GeneratedSpecs(config, reply);
    }
  }

  /** No server gives a spec that the gateway or another server has given before. */
  lemma ListedOnce(config: Config, reply: HelloReply)
    requires !config.noRouting && !config.defaultRoute
    ensures var own, gateway := Collected(config.(addRoutes := []), reply), GatewaySpecs(PrintCidr, reply.ranges);
            && gateway <= own
            && forall i, j :: 0 <= i < j < |own| && |gateway| <= j ==> own[i] != own[j]
  {
    hide PrintCidr, HostSpec, SubnetSpec, AddMissing;
    var plain := config.(addRoutes := []);
    var gateway := GatewaySpecs(PrintCidr, reply.ranges);
    var subnets, hosts := DnsSpecs(SubnetSpec, plain, reply), DnsSpecs(HostSpec, plain, reply);
    AddedOnce(gateway, hosts);
    if InfersSubnets(plain, reply) {
      var with := AddMissing(gateway, subnets);
      AddedOnce(gateway, subnets);
      AddedOnce(with, hosts);
      var own := AddMissing(with, hosts);
      forall i, j | 0 <= i < j < |own| && |gateway| <= j ensures own[i] != own[j] {
        assert j < |with| ==> own[i] == with[i] && own[j] == with[j];
      }
    }
  }

  lemma {:induction false} AddedOnce(specs: seq<string>, more: seq<string>)
    ensures var all := AddMissing(specs, more);
            specs <= all && forall i, j :: 0 <= i < j < |all| && |specs| <= j ==> all[i] != all[j]
    decreases |more|
  {
    if more != [] {
      AddedOnce(specs, more[..|more| - 1]);
    }
  }
}
