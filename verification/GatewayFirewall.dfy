/** The gateway's forward chain of src/host.rs: first match with a drop policy, over every packet run. */
module GatewayFirewall {
  import opened Basics
  import opened Addresses
  import opened CounterNames

  // ----------------------------------------------------------------------------- packets

  type Interface = string

  datatype Transport = ToPort(protocol: Protocol, port: nat) | OtherTransport

  datatype Ends = V4(src: Ipv4, dst: Ipv4) | V6(src6: Ipv6, dst6: Ipv6)

  datatype Packet = Packet(ends: Ends, iif: Interface, oif: Interface, transport: Transport)

  // ------------------------------------------------------------------------------- rules

  datatype Match =
    | IifIs(name: Interface) | IifIsNot(name: Interface)
    | OifIs(name: Interface) | OifIsNot(name: Interface)
    | SourceIs(address: Ipv4) | SourceIn(net: Ipv4Net) | SourceNotIn(net: Ipv4Net)
    | DestinationIs(address: Ipv4) | DestinationIsNot(address: Ipv4)
    | DestinationIn(net: Ipv4Net) | DestinationNotIn(net: Ipv4Net)
    | Source6Is(address6: Ipv6) | Source6In(net6: Ipv6Net) | Source6NotIn(net6: Ipv6Net)
    | Destination6Is(address6: Ipv6) | Destination6In(net6: Ipv6Net) | Destination6NotIn(net6: Ipv6Net)
    | Dport(protocol: Protocol, port: nat)
    | EstablishedRelated

  /** Counting goes on to the next rule; the others end the chain. */
  datatype Action = Count(name: string) | Accept | Drop | Reject

  datatype Rule = Rule(matches: seq<Match>, action: Action)

  predicate Holds(m: Match, p: Packet, tracked: bool) {
    var e := p.ends;
    match m
    case IifIs(name) => p.iif == name
    case IifIsNot(name) => p.iif != name
    case OifIs(name) => p.oif == name
    case OifIsNot(name) => p.oif != name
    case SourceIs(a) => e.V4? && e.src == a
    case SourceIn(net) => e.V4? && net.Contains(e.src)
    case SourceNotIn(net) => e.V4? && !net.Contains(e.src)
    case DestinationIs(a) => e.V4? && e.dst == a
    case DestinationIsNot(a) => e.V4? && e.dst != a
    case DestinationIn(net) => e.V4? && net.Contains(e.dst)
    case DestinationNotIn(net) => e.V4? && !net.Contains(e.dst)
    case Source6Is(a) => e.V6? && e.src6 == a
    case Source6In(net) => e.V6? && net.Contains(e.src6)
    case Source6NotIn(net) => e.V6? && !net.Contains(e.src6)
    case Destination6Is(a) => e.V6? && e.dst6 == a
    case Destination6In(net) => e.V6? && net.Contains(e.dst6)
    case Destination6NotIn(net) => e.V6? && !net.Contains(e.dst6)
    case Dport(protocol, port) => p.transport == ToPort(protocol, port)
    case EstablishedRelated => tracked
  }

  predicate AllHold(ms: seq<Match>, p: Packet, tracked: bool) { forall m <- ms :: Holds(m, p, tracked) }

  /** Whether the chain lets the packet through; `tracked` is connection tracking's established-or-related. */
  predicate Forwards(rules: seq<Rule>, p: Packet, tracked: bool) {
    if rules == [] then false
    else if AllHold(rules[0].matches, p, tracked) && !rules[0].action.Count? then rules[0].action == Accept
    else Forwards(rules[1..], p, tracked)
  }

  // --------------------------------------------------------------------------- rendering

  datatype Config = Config(subnet: Ipv4Net, gateway: Ipv4, tunnel: Interface, ipv6: Option<Ipv6Net>)

  datatype Client = Client(id: string, address: Ipv4, ipv6: Option<Ipv6>)

  function DownloadRules(config: Config, c: Client): seq<Rule> {
    var count := Count(CounterName("down", c.id));
    [Rule([IifIs(config.tunnel), DestinationIs(c.address)], count)]
    + if config.ipv6.Some? && c.ipv6.Some?
      then [Rule([IifIs(config.tunnel), Destination6Is(c.ipv6.value)], count)] else []
  }

  function UploadRules(config: Config, c: Client): seq<Rule> {
    var count := Count(CounterName("up", c.id));
    [Rule([SourceIs(c.address), OifIs(config.tunnel)], count)]
    + if config.ipv6.Some? && c.ipv6.Some?
      then [Rule([Source6Is(c.ipv6.value), OifIs(config.tunnel)], count)] else []
  }

  function DownloadCounters(config: Config, clients: seq<Client>): seq<Rule> {
    if clients == [] then [] else DownloadRules(config, clients[0]) + DownloadCounters(config, clients[1..])
  }

  function UploadCounters(config: Config, clients: seq<Client>): seq<Rule> {
    if clients == [] then [] else UploadRules(config, clients[0]) + UploadCounters(config, clients[1..])
  }

  function LeakGuards(config: Config): seq<Rule> {
    [Rule([SourceIn(config.subnet), DestinationNotIn(config.subnet), OifIsNot(config.tunnel)], Drop),
     Rule([DestinationIn(config.subnet), SourceNotIn(config.subnet), IifIsNot(config.tunnel)], Drop)]
  }

  function LeakGuards6(config: Config): seq<Rule> {
    if config.ipv6.None? then []
    else
      var net := config.ipv6.value;
      [Rule([Source6In(net), Destination6NotIn(net), OifIsNot(config.tunnel)], Drop),
       Rule([Destination6In(net), Source6NotIn(net), IifIsNot(config.tunnel)], Drop)]
  }

  function DnsRejects(config: Config): seq<Rule> {
    [Rule([SourceIn(config.subnet), Dport(Udp, 53), DestinationIsNot(config.gateway)], Reject),
     Rule([SourceIn(config.subnet), Dport(Tcp, 53), DestinationIsNot(config.gateway)], Reject)]
  }

  function Accepts(config: Config): seq<Rule> {
    [Rule([SourceIn(config.subnet), OifIs(config.tunnel)], Accept),
     Rule([IifIs(config.tunnel), DestinationIn(config.subnet)], Accept)]
  }

  function Accepts6(config: Config): seq<Rule> {
    if config.ipv6.None? then []
    else
      var net := config.ipv6.value;
      [Rule([Source6In(net), Dport(Udp, 53)], Reject),
       Rule([Source6In(net), Dport(Tcp, 53)], Reject),
       Rule([Source6In(net), OifIs(config.tunnel)], Accept)]
  }

  function ForwardChain(config: Config, clients: seq<Client>): seq<Rule> {
    DownloadCounters(config, clients) + UploadCounters(config, clients)
    + LeakGuards(config) + LeakGuards6(config)
    + [Rule([EstablishedRelated], Accept)] + DnsRejects(config) + Accepts(config) + Accepts6(config)
  }

  // ----------------------------------------------------------------------------- meaning

  predicate ToDns(p: Packet) { p.transport == ToPort(Udp, 53) || p.transport == ToPort(Tcp, 53) }

  /** Enrolled traffic crossing the gateway other than through the tunnel. */
  predicate Leaks(config: Config, p: Packet) {
    match p.ends
    case V4(src, dst) =>
      || (config.subnet.Contains(src) && !config.subnet.Contains(dst) && p.oif != config.tunnel)
      || (config.subnet.Contains(dst) && !config.subnet.Contains(src) && p.iif != config.tunnel)
    case V6(src, dst) =>
      && config.ipv6.Some?
      && (|| (config.ipv6.value.Contains(src) && !config.ipv6.value.Contains(dst) && p.oif != config.tunnel)
          || (config.ipv6.value.Contains(dst) && !config.ipv6.value.Contains(src) && p.iif != config.tunnel))
  }

  /** A packet allowed to open a flow. */
  predicate MayOpen(config: Config, p: Packet) {
    match p.ends
    case V4(src, dst) =>
      && !(config.subnet.Contains(src) && ToDns(p) && dst != config.gateway)
      && ((config.subnet.Contains(src) && p.oif == config.tunnel) ||
          (p.iif == config.tunnel && config.subnet.Contains(dst)))
    case V6(src, dst) =>
      config.ipv6.Some? && config.ipv6.value.Contains(src) && !ToDns(p) && p.oif == config.tunnel
  }

  predicate AllCount(rules: seq<Rule>) { forall r <- rules :: r.action.Count? }

  lemma {:induction false} CountersOnlyCount(config: Config, clients: seq<Client>)
    ensures AllCount(DownloadCounters(config, clients)) && AllCount(UploadCounters(config, clients))
  {
    if clients != [] { CountersOnlyCount(config, clients[1..]); }
  }

  lemma {:induction false} CountingDecidesNothing(counters: seq<Rule>, rest: seq<Rule>, p: Packet, tracked: bool)
    requires AllCount(counters)
    ensures Forwards(counters + rest, p, tracked) == Forwards(rest, p, tracked)
  {
    if counters == [] {
      assert counters + rest == rest;
    } else {
      assert (counters + rest)[1..] == counters[1..] + rest;
      assert (counters + rest)[0] == counters[0];
      CountingDecidesNothing(counters[1..], rest, p, tracked);
    }
  }

  lemma Unroll(rule: Rule, rest: seq<Rule>, p: Packet, tracked: bool)
    ensures Forwards([rule] + rest, p, tracked) ==
            if AllHold(rule.matches, p, tracked) && !rule.action.Count? then rule.action == Accept
            else Forwards(rest, p, tracked)
  {
    assert ([rule] + rest)[1..] == rest;
  }

  lemma HoldTwo(a: Match, b: Match, p: Packet, tracked: bool)
    ensures AllHold([a, b], p, tracked) <==> Holds(a, p, tracked) && Holds(b, p, tracked)
  {
    assert a in [a, b] && b in [a, b];
  }

  lemma HoldThree(a: Match, b: Match, c: Match, p: Packet, tracked: bool)
    ensures AllHold([a, b, c], p, tracked) <==> Holds(a, p, tracked) && Holds(b, p, tracked) && Holds(c, p, tracked)
  {
    assert a in [a, b, c] && b in [a, b, c] && c in [a, b, c];
  }

  /** Two consecutive rules that stop packets. */
  lemma TwoStops(first: Rule, second: Rule, rest: seq<Rule>, p: Packet, tracked: bool)
    requires (first.action.Drop? || first.action.Reject?) && (second.action.Drop? || second.action.Reject?)
    ensures Forwards([first, second] + rest, p, tracked) ==
            (!AllHold(first.matches, p, tracked) && !AllHold(second.matches, p, tracked) && Forwards(rest, p, tracked))
  {
    Unroll(first, [second] + rest, p, tracked);
    Unroll(second, rest, p, tracked);
    assert [first, second] + rest == [first] + ([second] + rest);
  }

  lemma GuardsStop(config: Config, rest: seq<Rule>, p: Packet, tracked: bool)
    ensures Forwards(LeakGuards(config) + rest, p, tracked) ==
            (!(p.ends.V4? && Leaks(config, p)) && Forwards(rest, p, tracked))
  {
    var out, back := LeakGuards(config)[0], LeakGuards(config)[1];
    HoldThree(out.matches[0], out.matches[1], out.matches[2], p, tracked);
    HoldThree(back.matches[0], back.matches[1], back.matches[2], p, tracked);
    TwoStops(out, back, rest, p, tracked);
  }

  lemma GuardsMatch6(config: Config, p: Packet, tracked: bool)
    requires config.ipv6.Some?
    ensures p.ends.V6? && Leaks(config, p) <==>
            AllHold(LeakGuards6(config)[0].matches, p, tracked) || AllHold(LeakGuards6(config)[1].matches, p, tracked)
  {
    var net, tunnel := config.ipv6.value, config.tunnel;
    HoldThree(Source6In(net), Destination6NotIn(net), OifIsNot(tunnel), p, tracked);
    HoldThree(Destination6In(net), Source6NotIn(net), IifIsNot(tunnel), p, tracked);
  }

  lemma GuardsStop6(config: Config, rest: seq<Rule>, p: Packet, tracked: bool)
    ensures Forwards(LeakGuards6(config) + rest, p, tracked) ==
            (!(p.ends.V6? && Leaks(config, p)) && Forwards(rest, p, tracked))
  {
    if config.ipv6.None? {
      assert LeakGuards6(config) + rest == rest;
    } else {
      GuardsMatch6(config, p, tracked);
      var guards := LeakGuards6(config);
      TwoStops(guards[0], guards[1], rest, p, tracked);
      assert guards == [guards[0], guards[1]];
    }
  }

  predicate ForeignDns(config: Config, p: Packet) {
    p.ends.V4? && config.subnet.Contains(p.ends.src) && ToDns(p) && p.ends.dst != config.gateway
  }

  lemma DnsIsRejected(config: Config, rest: seq<Rule>, p: Packet, tracked: bool)
    ensures Forwards(DnsRejects(config) + rest, p, tracked) == (!ForeignDns(config, p) && Forwards(rest, p, tracked))
  {
    var udp, tcp := DnsRejects(config)[0], DnsRejects(config)[1];
    HoldThree(udp.matches[0], udp.matches[1], udp.matches[2], p, tracked);
    HoldThree(tcp.matches[0], tcp.matches[1], tcp.matches[2], p, tracked);
    TwoStops(udp, tcp, rest, p, tracked);
  }

  lemma TunnelAccepts(config: Config, rest: seq<Rule>, p: Packet, tracked: bool)
    ensures Forwards(Accepts(config) + rest, p, tracked) ==
            (|| (p.ends.V4? && ((config.subnet.Contains(p.ends.src) && p.oif == config.tunnel)
                                || (p.iif == config.tunnel && config.subnet.Contains(p.ends.dst))))
             || Forwards(rest, p, tracked))
  {
    var out, back := Accepts(config)[0], Accepts(config)[1];
    HoldTwo(out.matches[0], out.matches[1], p, tracked);
    HoldTwo(back.matches[0], back.matches[1], p, tracked);
    Unroll(out, [back] + rest, p, tracked);
    Unroll(back, rest, p, tracked);
    assert Accepts(config) + rest == [out] + ([back] + rest);
  }

  lemma Accepts6Decide(config: Config, p: Packet, tracked: bool)
    ensures Forwards(Accepts6(config), p, tracked) == (p.ends.V6? && MayOpen(config, p))
  {
    if config.ipv6.Some? {
      var rs := Accepts6(config);
      HoldTwo(rs[0].matches[0], rs[0].matches[1], p, tracked);
      HoldTwo(rs[1].matches[0], rs[1].matches[1], p, tracked);
      HoldTwo(rs[2].matches[0], rs[2].matches[1], p, tracked);
      TwoStops(rs[0], rs[1], [rs[2]], p, tracked);
      Unroll(rs[2], [], p, tracked);
      assert [rs[2]] + [] == [rs[2]] && rs == [rs[0], rs[1]] + [rs[2]];
    }
  }

  /** What follows the leak guards. */
  function Openings(config: Config): seq<Rule> {
    [Rule([EstablishedRelated], Accept)] + (DnsRejects(config) + (Accepts(config) + Accepts6(config)))
  }

  lemma OpeningsDecide(config: Config, p: Packet, tracked: bool)
    ensures Forwards(Openings(config), p, tracked) == (tracked || MayOpen(config, p))
  {
    var known, rest := Rule([EstablishedRelated], Accept), Accepts(config) + Accepts6(config);
    assert AllHold(known.matches, p, tracked) == tracked by { assert known.matches[0] in known.matches; }
    Unroll(known, DnsRejects(config) + rest, p, tracked);
    DnsIsRejected(config, rest, p, tracked);
    TunnelAccepts(config, Accepts6(config), p, tracked);
    Accepts6Decide(config, p, tracked);
  }

  lemma ChainSplits(config: Config, clients: seq<Client>)
    ensures ForwardChain(config, clients) ==
            DownloadCounters(config, clients)
            + (UploadCounters(config, clients) + (LeakGuards(config) + (LeakGuards6(config) + Openings(config))))
  {
    var known := [Rule([EstablishedRelated], Accept)];
    var counters := DownloadCounters(config, clients) + UploadCounters(config, clients);
    RightNested(counters + LeakGuards(config) + LeakGuards6(config), known,
                DnsRejects(config), Accepts(config), Accepts6(config));
    RightNested(DownloadCounters(config, clients), UploadCounters(config, clients), LeakGuards(config),
                LeakGuards6(config),
                Openings(config));
  }

  lemma RightNested(a: seq<Rule>, b: seq<Rule>, c: seq<Rule>, d: seq<Rule>, e: seq<Rule>)
    ensures a + b + c + d + e == a + (b + (c + (d + e)))
  {
  }

  /** The chain is exact: a packet passes if and only if it leaks nothing and its flow is known or may be opened. */
  lemma ForwardIsExact(config: Config, clients: seq<Client>, p: Packet, tracked: bool)
    ensures Forwards(ForwardChain(config, clients), p, tracked) <==>
            !Leaks(config, p) && (tracked || MayOpen(config, p))
  {
    var guarded := LeakGuards(config) + (LeakGuards6(config) + Openings(config));
    ChainSplits(config, clients);
    CountersOnlyCount(config, clients);
    CountingDecidesNothing(DownloadCounters(config, clients), UploadCounters(config, clients) + guarded, p, tracked);
    CountingDecidesNothing(UploadCounters(config, clients), guarded, p, tracked);
    GuardsStop(config, LeakGuards6(config) + Openings(config), p, tracked);
    GuardsStop6(config, Openings(config), p, tracked);
    OpeningsDecide(config, p, tracked);
  }

  // ---------------------------------------------------------------------------- counting

  /** The counters a packet advances on its way through the chain, once per rule that counts it. */
  function Advances(rules: seq<Rule>, p: Packet, tracked: bool): multiset<string> {
    if rules == [] then multiset{}
    else if !AllHold(rules[0].matches, p, tracked) then Advances(rules[1..], p, tracked)
    else if rules[0].action.Count? then multiset{rules[0].action.name} + Advances(rules[1..], p, tracked)
    else multiset{}
  }

  predicate IsAddress(config: Config, c: Client, ends: Ends, download: bool) {
    match ends
    case V4(src, dst) => c.address == if download then dst else src
    case V6(src, dst) => config.ipv6.Some? && c.ipv6 == Some(if download then dst else src)
  }

  /** The packet comes in by the tunnel for the client, or goes out by it from the client. */
  predicate Carries(config: Config, c: Client, p: Packet, download: bool) {
    && (if download then p.iif else p.oif) == config.tunnel
    && IsAddress(config, c, p.ends, download)
  }

  function Direction(download: bool): string { if download then "down" else "up" }

  /** For how many of the clients the packet counts under this name. */
  function Hits(config: Config, clients: seq<Client>, p: Packet, download: bool, name: string): nat {
    if clients == [] then 0
    else
      Hits(config, clients[1..], p, download, name)
      + if CounterName(Direction(download), clients[0].id) == name && Carries(config, clients[0], p, download)
        then 1 else 0
  }

  function CountersOf(config: Config, clients: seq<Client>, download: bool): seq<Rule> {
    if download then DownloadCounters(config, clients) else UploadCounters(config, clients)
  }

  function RulesOf(config: Config, c: Client, download: bool): seq<Rule> {
    if download then DownloadRules(config, c) else UploadRules(config, c)
  }

  lemma AdvanceOne(rule: Rule, rest: seq<Rule>, p: Packet, tracked: bool)
    requires rule.action.Count?
    ensures Advances([rule] + rest, p, tracked) ==
            (if AllHold(rule.matches, p, tracked) then multiset{rule.action.name} else multiset{})
            + Advances(rest, p, tracked)
  {
    assert ([rule] + rest)[1..] == rest;
  }

  lemma RuleHolds(config: Config, c: Client, p: Packet, tracked: bool, download: bool)
    ensures AllHold(RulesOf(config, c, download)[0].matches, p, tracked) <==>
            p.ends.V4? && Carries(config, c, p, download)
    ensures |RulesOf(config, c, download)| == if config.ipv6.Some? && c.ipv6.Some? then 2 else 1
    ensures config.ipv6.Some? && c.ipv6.Some? ==>
              (AllHold(RulesOf(config, c, download)[1].matches, p, tracked) <==>
               p.ends.V6? && Carries(config, c, p, download))
    ensures forall r <- RulesOf(config, c, download) :: r.action == Count(CounterName(Direction(download), c.id))
  {
    if download {
      HoldTwo(IifIs(config.tunnel), DestinationIs(c.address), p, tracked);
      if c.ipv6.Some? { HoldTwo(IifIs(config.tunnel), Destination6Is(c.ipv6.value), p, tracked); }
    } else {
      HoldTwo(SourceIs(c.address), OifIs(config.tunnel), p, tracked);
      if c.ipv6.Some? { HoldTwo(Source6Is(c.ipv6.value), OifIs(config.tunnel), p, tracked); }
    }
  }

  /** One or two rules counting under a name, at most one of which holds, count once if one does. */
  lemma OneAdvances(own: seq<Rule>, rest: seq<Rule>, p: Packet, tracked: bool, name: string, hit: bool)
    requires 1 <= |own| <= 2 && forall r <- own :: r.action == Count(name)
    requires AllHold(own[0].matches, p, tracked) ==> hit && (|own| == 2 ==> !AllHold(own[1].matches, p, tracked))
    requires !AllHold(own[0].matches, p, tracked) ==> (hit <==> |own| == 2 && AllHold(own[1].matches, p, tracked))
    ensures Advances(own + rest, p, tracked)
            == (if hit then multiset{name} else multiset{}) + Advances(rest, p, tracked)
  {
    AdvanceOne(own[0], own[1..] + rest, p, tracked);
    assert own + rest == [own[0]] + (own[1..] + rest);
    if |own| == 2 {
      AdvanceOne(own[1], rest, p, tracked);
      assert own[1..] + rest == [own[1]] + rest;
    } else {
      assert own[1..] + rest == rest;
    }
  }

  /** The rules of one client: one for IPv4, and one for IPv6 if it has an address there and it is routed. */
  lemma ClientCounts(config: Config, c: Client, rest: seq<Rule>, p: Packet, tracked: bool, download: bool)
    ensures Advances(RulesOf(config, c, download) + rest, p, tracked) ==
            (if Carries(config, c, p, download) then multiset{CounterName(Direction(download), c.id)} else multiset{})
            + Advances(rest, p, tracked)
  {
    RuleHolds(config, c, p, tracked, download);
    OneAdvances(RulesOf(config, c, download), rest, p, tracked, CounterName(Direction(download), c.id),
                Carries(config, c, p, download));
  }

  lemma {:induction false} CountersAdvance(config: Config, clients: seq<Client>, rest: seq<Rule>, p: Packet,
                                           tracked: bool, download: bool, name: string)
    ensures Advances(CountersOf(config, clients, download) + rest, p, tracked)[name] ==
            Hits(config, clients, p, download, name) + Advances(rest, p, tracked)[name]
  {
    if clients == [] {
      assert CountersOf(config, clients, download) + rest == rest;
    } else {
      var first, others := RulesOf(config, clients[0], download), CountersOf(config, clients[1..], download);
      assert CountersOf(config, clients, download) + rest == first + (others + rest);
      ClientCounts(config, clients[0], others + rest, p, tracked, download);
      CountersAdvance(config, clients[1..], rest, p, tracked, download, name);
    }
  }

  predicate NoneCounts(rules: seq<Rule>) { forall r <- rules :: !r.action.Count? }

  lemma {:induction false} VerdictsCountNothing(rules: seq<Rule>, p: Packet, tracked: bool)
    requires NoneCounts(rules)
    ensures Advances(rules, p, tracked) == multiset{}
  {
    if rules != [] {
      assert rules[0] in rules && NoneCounts(rules[1..]);
      VerdictsCountNothing(rules[1..], p, tracked);
    }
  }

  lemma NoneCountsTogether(a: seq<Rule>, b: seq<Rule>)
    requires NoneCounts(a) && NoneCounts(b)
    ensures NoneCounts(a + b)
  {
  }

  lemma PartsCountNothing(config: Config)
    ensures NoneCounts(LeakGuards(config)) && NoneCounts(LeakGuards6(config)) && NoneCounts(DnsRejects(config))
    ensures NoneCounts(Accepts(config)) && NoneCounts(Accepts6(config))
  {
  }

  lemma GuardedPartCountsNothing(config: Config)
    ensures NoneCounts(LeakGuards(config) + (LeakGuards6(config) + Openings(config)))
  {
    PartsCountNothing(config);
    NoneCountsTogether(Accepts(config), Accepts6(config));
    NoneCountsTogether(DnsRejects(config), Accepts(config) + Accepts6(config));
    NoneCountsTogether([Rule([EstablishedRelated], Accept)], DnsRejects(config) + (Accepts(config) + Accepts6(config)));
    NoneCountsTogether(LeakGuards6(config), Openings(config));
    NoneCountsTogether(LeakGuards(config), LeakGuards6(config) + Openings(config));
  }

  lemma {:induction false} NoHits(config: Config, clients: seq<Client>, p: Packet, download: bool, name: string)
    requires forall c <- clients :: CounterName(Direction(download), c.id) != name
    ensures Hits(config, clients, p, download, name) == 0
  {
    if clients != [] { NoHits(config, clients[1..], p, download, name); }
  }

  predicate NamesDiffer(clients: seq<Client>) {
    forall i, j | 0 <= i < j < |clients| :: Clipped(Safe(clients[i].id)) != Clipped(Safe(clients[j].id))
  }

  lemma {:induction false} OwnHits(config: Config, clients: seq<Client>, p: Packet, download: bool, i: nat)
    requires NamesDiffer(clients) && i < |clients|
    ensures Hits(config, clients, p, download, CounterName(Direction(download), clients[i].id)) ==
            if Carries(config, clients[i], p, download) then 1 else 0
  {
    if i == 0 {
      forall c <- clients[1..]
        ensures CounterName(Direction(download), c.id) != CounterName(Direction(download), clients[0].id)
      {
        var j :| 1 <= j < |clients| && clients[j] == c;
        NamesAgreeIff(Direction(download), clients[0].id, clients[j].id);
      }
      NoHits(config, clients[1..], p, download, CounterName(Direction(download), clients[0].id));
    } else {
      NamesAgreeIff(Direction(download), clients[0].id, clients[i].id);
      assert forall k, l | 0 <= k < l < |clients[1..]| ::
          clients[1..][k] == clients[k + 1] && clients[1..][l] == clients[l + 1];
      OwnHits(config, clients[1..], p, download, i - 1);
    }
  }

  lemma ChainAdvances(config: Config, clients: seq<Client>, p: Packet, tracked: bool, name: string)
    ensures Advances(ForwardChain(config, clients), p, tracked)[name] ==
            Hits(config, clients, p, true, name) + Hits(config, clients, p, false, name)
  {
    var rest := LeakGuards(config) + (LeakGuards6(config) + Openings(config));
    ChainSplits(config, clients);
    CountersAdvance(config, clients, UploadCounters(config, clients) + rest, p, tracked, true, name);
    CountersAdvance(config, clients, rest, p, tracked, false, name);
    GuardedPartCountsNothing(config);
    VerdictsCountNothing(rest, p, tracked);
  }

  /**
   The counters are exact: whatever becomes of a packet, it advances a client's download counter once
   if it came in by the tunnel for one of the client's addresses and its upload counter once if it
   leaves by the tunnel from one of them, and otherwise not at all.
   */
  lemma CountersAreExact(config: Config, clients: seq<Client>, p: Packet, tracked: bool, download: bool, i: nat)
    requires NamesDiffer(clients) && i < |clients|
    ensures Advances(ForwardChain(config, clients), p, tracked)[CounterName(Direction(download), clients[i].id)] ==
            if Carries(config, clients[i], p, download) then 1 else 0
  {
    var name := CounterName(Direction(download), clients[i].id);
    ChainAdvances(config, clients, p, tracked, name);
    OwnHits(config, clients, p, download, i);
    forall c <- clients ensures CounterName(Direction(!download), c.id) != name {
      NamesAgreeIff("up", c.id, clients[i].id);
      NamesAgreeIff("up", clients[i].id, c.id);
    }
    NoHits(config, clients, p, !download, name);
  }

  // --------------------------------------------------------------------------------- runs

  /** A tracked conversation, of one address family. */
  datatype Flow = Flow4(id: nat) | Flow6(id: nat)

  /** How connection tracking classifies a forwarded packet; a related one names the flow it follows from. */
  datatype Tracking = New | Established | Related(to: Flow)

  datatype Crossing = Crossing(packet: Packet, flow: Flow, state: Tracking)

  /** The flows forwarded so far, each with the packet that started it or the flow it was related to. */
  type Table = map<Flow, Packet>

  /** Connection tracking only knows flows of the table, and relates flows of one family. */
  predicate Classified(table: Table, x: Crossing) {
    && (x.flow.Flow6? <==> x.packet.ends.V6?)
    && (x.state.Established? ==> x.flow in table)
    && (x.state.Related? ==> x.state.to in table && (x.state.to.Flow6? <==> x.flow.Flow6?))
  }

  predicate Passes(config: Config, clients: seq<Client>, x: Crossing) {
    Forwards(ForwardChain(config, clients), x.packet, !x.state.New?)
  }

  function Step(config: Config, clients: seq<Client>, table: Table, x: Crossing): Table
    requires Classified(table, x)
  {
    if !Passes(config, clients, x) || x.flow in table then table
    else if x.state.Related? then table[x.flow := table[x.state.to]]
    else table[x.flow := x.packet]
  }

  /** A run over packets, each classified against the table so far, while clients come and go. */
  ghost predicate IsRun(config: Config, clients: seq<seq<Client>>, xs: seq<Crossing>, tables: seq<Table>) {
    && |tables| == |xs| + 1 && |clients| == |xs| && tables[0] == map[]
    && forall i | 0 <= i < |xs| ::
         Classified(tables[i], xs[i]) && tables[i + 1] == Step(config, clients[i], tables[i], xs[i])
  }

  /** Every IPv6 flow of the table was started by an enrolled source out of the tunnel. */
  ghost predicate Rooted6(config: Config, table: Table) {
    forall f <- table | f.Flow6? :: table[f].ends.V6? && MayOpen(config, table[f])
  }

  lemma {:induction false} RunRooted6(config: Config, clients: seq<seq<Client>>, xs: seq<Crossing>, tables: seq<Table>,
                                      n: nat)
    requires IsRun(config, clients, xs, tables) && n <= |xs|
    ensures Rooted6(config, tables[n])
  {
    if n > 0 {
      RunRooted6(config, clients, xs, tables, n - 1);
      var x := xs[n - 1];
      ForwardIsExact(config, clients[n - 1], x.packet, !x.state.New?);
    }
  }

  /** Whatever connection tracking says, enrolled traffic crosses the gateway only through the tunnel. */
  lemma NothingLeaks(config: Config, clients: seq<Client>, p: Packet, tracked: bool)
    requires Forwards(ForwardChain(config, clients), p, tracked)
    ensures p.ends.V4? && config.subnet.Contains(p.ends.src) && !config.subnet.Contains(p.ends.dst) ==>
            p.oif == config.tunnel
    ensures p.ends.V4? && config.subnet.Contains(p.ends.dst) && !config.subnet.Contains(p.ends.src) ==>
            p.iif == config.tunnel
    ensures p.ends.V6? && config.ipv6.Some? ==>
              var net := config.ipv6.value;
              && (net.Contains(p.ends.src6) && !net.Contains(p.ends.dst6) ==> p.oif == config.tunnel)
              && (net.Contains(p.ends.dst6) && !net.Contains(p.ends.src6) ==> p.iif == config.tunnel)
  {
    ForwardIsExact(config, clients, p, tracked);
  }

  /**
   Over any run from an empty table: with IPv6 off no IPv6 packet is ever forwarded, and with it on
   every forwarded IPv6 packet belongs to a flow that an enrolled source started through the tunnel.
   */
  lemma Ipv6FlowsStartInside(config: Config, clients: seq<seq<Client>>, xs: seq<Crossing>, tables: seq<Table>, n: nat)
    requires IsRun(config, clients, xs, tables) && n < |xs|
    requires xs[n].packet.ends.V6? && Passes(config, clients[n], xs[n])
    ensures config.ipv6.Some?
    ensures xs[n].flow in tables[n + 1]
    ensures var root := tables[n + 1][xs[n].flow];
            root.ends.V6? && config.ipv6.value.Contains(root.ends.src6) && root.oif == config.tunnel && !ToDns(root)
  {
    RunRooted6(config, clients, xs, tables, n);
    RunRooted6(config, clients, xs, tables, n + 1);
    var x := xs[n];
    ForwardIsExact(config, clients[n], x.packet, !x.state.New?);
    assert x.flow in tables[n + 1] && x.flow.Flow6?;
  }
}
