/**
 The bridge ruleset of src/isolation.rs: an ordered, first-match list compiled from the isolation
 policy, and what that list means for a frame crossing the bridge.
 */
module IsolationRules {
  import opened Basics
  import opened Addresses

  type Mac = string

  datatype IsolationMode = Disabled | Audit | Enforce

  datatype Allowance = Allowance(destinationId: string, destination: Ipv4, port: nat, protocol: Protocol)

  datatype Participant = Participant(
    containerId: string,
    name: string,
    isolationId: Option<string>,
    address: Ipv4,
    allowances: seq<Allowance>,
    mac: Option<Mac>)

  /** The part of the published policy that the ruleset is compiled from. */
  datatype Policy = Policy(
    subnet: Ipv4Net,
    eligible: bool,
    participants: seq<Participant>,
    ipv6Subnet: Option<Ipv6Net>,
    boundRange: Option<Ipv4Net>,
    gateway: Option<Ipv4>)
  {
    predicate Valid() { subnet.Valid() }
  }

  // ------------------------------------------------------------------- frames and rules

  datatype Icmp6 = NeighborSolicit | NeighborAdvert | PacketTooBig | DestinationUnreachable | OtherIcmp6

  datatype Transport = ToPort(protocol: Protocol, port: nat) | Icmpv6(kind: Icmp6) | OtherTransport

  /** How connection tracking sees a packet. */
  datatype Tracking = Tracking(establishedOrRelated: bool, dnat: bool)

  datatype Payload =
    | V4(saddr: Ipv4, daddr: Ipv4, transport: Transport, ct: Tracking)
    | Arp(sender: Ipv4)
    | V6(saddr6: Ipv6, daddr6: Ipv6, transport: Transport, ct: Tracking)
    | OtherPayload

  datatype Frame = Frame(mac: Mac, payload: Payload)

  /** One nftables match; each implies its own protocol, so a negated one still fails on other frames. */
  datatype Match =
    | IpSaddr(address: Ipv4)
    | IpSaddrIn(net: Ipv4Net)
    | IpSaddrNotAmong(addresses: set<Ipv4>)
    | IpDaddr(address: Ipv4)
    | IpDaddrIn(net: Ipv4Net)
    | ArpSaddr(address: Ipv4)
    | ArpSaddrIn(net: Ipv4Net)
    | ArpSaddrNotAmong(addresses: set<Ipv4>)
    | EtherSaddr(mac: Mac)
    | EtherSaddrNot(mac: Mac)
    | EstablishedRelated
    | DnatStatus
    | Dport(protocol: Protocol, port: nat)
    | Icmp6Among(kinds: set<Icmp6>)
    | Ip6SaddrAmong(nets: seq<Ipv6Net>)
    | Ip6DaddrAmong(nets: seq<Ipv6Net>)

  datatype Verdict = Accept | Drop

  datatype Rule = Rule(matches: seq<Match>, verdict: Verdict)

  predicate Holds(m: Match, f: Frame) {
    var p := f.payload;
    match m
    case IpSaddr(a) => p.V4? && p.saddr == a
    case IpSaddrIn(net) => p.V4? && net.Contains(p.saddr)
    case IpSaddrNotAmong(addresses) => p.V4? && p.saddr !in addresses
    case IpDaddr(a) => p.V4? && p.daddr == a
    case IpDaddrIn(net) => p.V4? && net.Contains(p.daddr)
    case ArpSaddr(a) => p.Arp? && p.sender == a
    case ArpSaddrIn(net) => p.Arp? && net.Contains(p.sender)
    case ArpSaddrNotAmong(addresses) => p.Arp? && p.sender !in addresses
    case EtherSaddr(mac) => f.mac == mac
    case EtherSaddrNot(mac) => f.mac != mac
    case EstablishedRelated => (p.V4? || p.V6?) && p.ct.establishedOrRelated
    case DnatStatus => (p.V4? || p.V6?) && p.ct.dnat
    case Dport(protocol, port) => (p.V4? || p.V6?) && p.transport == ToPort(protocol, port)
    case Icmp6Among(kinds) => p.V6? && p.transport.Icmpv6? && p.transport.kind in kinds
    case Ip6SaddrAmong(nets) => p.V6? && exists net <- nets :: net.Contains(p.saddr6)
    case Ip6DaddrAmong(nets) => p.V6? && exists net <- nets :: net.Contains(p.daddr6)
  }

  predicate Hits(r: Rule, f: Frame) { forall m <- r.matches :: Holds(m, f) }

  /** First match decides; the chain's policy is accept. */
  function Evaluate(rules: seq<Rule>, f: Frame): Verdict {
    if rules == [] then Accept
    else if Hits(rules[0], f) then rules[0].verdict
    else Evaluate(rules[1..], f)
  }

  // ------------------------------------------------------------------------ compilation

  function EffectiveMode(policy: Policy, requested: IsolationMode): IsolationMode {
    if requested == Enforce && !policy.eligible then Audit else requested
  }

  function VerdictOf(mode: IsolationMode): Verdict { if mode == Enforce then Drop else Accept }

  /** The rules binding one participant's address and MAC to each other. */
  function BindingsOf(p: Participant, gateway: Option<Ipv4>): seq<Rule> {
    if p.mac.None? then []
    else
      [Rule([IpSaddr(p.address), EtherSaddrNot(p.mac.value)], Drop),
       Rule([ArpSaddr(p.address), EtherSaddrNot(p.mac.value)], Drop)]
      + if gateway == Some(p.address) then []
        else
          [Rule([EtherSaddr(p.mac.value), IpSaddrNotAmong({p.address})], Drop),
           Rule([EtherSaddr(p.mac.value), ArpSaddrNotAmong({p.address, UNSPECIFIED})], Drop)]
  }

  function AllBindings(ps: seq<Participant>, gateway: Option<Ipv4>): seq<Rule> {
    if ps == [] then [] else AllBindings(ps[..|ps| - 1], gateway) + BindingsOf(ps[|ps| - 1], gateway)
  }

  function BoundAddresses(ps: seq<Participant>): set<Ipv4> {
    set p | p in ps && p.mac.Some? :: p.address
  }

  /** Sources in the range are admitted only from bound participants. */
  function RangeRules(range: Ipv4Net, bound: set<Ipv4>): seq<Rule> {
    var members := set a | a in bound && range.Contains(a);
    if members == {} then [Rule([IpSaddrIn(range)], Drop), Rule([ArpSaddrIn(range)], Drop)]
    else [Rule([IpSaddrIn(range), IpSaddrNotAmong(members)], Drop),
          Rule([ArpSaddrIn(range), ArpSaddrNotAmong(members)], Drop)]
  }

  function AddressBindings(policy: Policy): seq<Rule> {
    if policy.boundRange.None? then []
    else AllBindings(policy.participants, policy.gateway)
         + RangeRules(policy.boundRange.value, BoundAddresses(policy.participants))
  }

  function AllowanceRule(source: Ipv4, a: Allowance): Rule {
    Rule([IpSaddr(source), IpDaddr(a.destination), Dport(a.protocol, a.port)], Accept)
  }

  function AllowanceRules(ps: seq<Participant>): set<Rule> {
    set p, a | p in ps && a in p.allowances :: AllowanceRule(p.address, a)
  }

  function PairRule(source: Participant, destination: Participant, verdict: Verdict): Rule {
    Rule([IpSaddr(source.address), IpDaddr(destination.address)], verdict)
  }

  function PairsFrom(source: Participant, ps: seq<Participant>, verdict: Verdict): seq<Rule> {
    if ps == [] then []
    else
      var destination := ps[|ps| - 1];
      PairsFrom(source, ps[..|ps| - 1], verdict)
      + if source.address == destination.address then [] else [PairRule(source, destination, verdict)]
  }

  function AllPairs(sources: seq<Participant>, ps: seq<Participant>, verdict: Verdict): seq<Rule> {
    if sources == [] then []
    else AllPairs(sources[..|sources| - 1], ps, verdict) + PairsFrom(sources[|sources| - 1], ps, verdict)
  }

  function Ipv6Rules(subnet: Option<Ipv6Net>, verdict: Verdict): seq<Rule> {
    if subnet.None? then []
    else [Rule([Icmp6Among({NeighborSolicit, NeighborAdvert, PacketTooBig, DestinationUnreachable})], Accept),
          Rule([Ip6SaddrAmong([subnet.value, LINK_LOCAL]), Ip6DaddrAmong([subnet.value, LINK_LOCAL, MULTICAST])],
               verdict)]
  }

  /** The chain, given the order in which the distinct allowance rules are listed. */
  function Chain(policy: Policy, mode: IsolationMode, allowances: seq<Rule>): seq<Rule>
    requires policy.Valid()
  {
    if mode == Disabled then []
    else
      AddressBindings(policy)
      + [Rule([EstablishedRelated], Accept), Rule([DnatStatus], Accept),
         Rule([IpSaddr(policy.subnet.FirstHost()), IpDaddr(policy.subnet.broadcast)], Accept)]
      + allowances
      + AllPairs(policy.participants, policy.participants, VerdictOf(mode))
      + [Rule([IpSaddrIn(policy.subnet), IpDaddrIn(policy.subnet)], VerdictOf(mode))]
      + Ipv6Rules(policy.ipv6Subnet, VerdictOf(mode))
  }

  /** `order` lists exactly the allowance rules, each once. */
  ghost predicate ListsAllowances(order: seq<Rule>, ps: seq<Participant>) {
    && (forall r :: r in order <==> r in AllowanceRules(ps))
    && (forall i: nat, j: nat | i < j < |order| :: order[i] != order[j])
  }

  // ------------------------------------------------------------------ imperative form

  method RenderAddressBindings(policy: Policy) returns (rules: seq<Rule>)
    ensures rules == AddressBindings(policy)
  {
    if policy.boundRange.None? { return []; }
    rules := [];
    var bound: set<Ipv4> := {};
    var ps := policy.participants;
    for i := 0 to |ps|
      invariant rules == AllBindings(ps[..i], policy.gateway)
      invariant bound == BoundAddresses(ps[..i])
    {
      assert ps[..i + 1][..i] == ps[..i];
      BoundNext(ps, i);
      var own := RenderBindings(ps[i], policy.gateway);
      rules := rules + own;
      if ps[i].mac.Some? { bound := bound + {ps[i].address}; }
    }
    assert ps[..|ps|] == ps;
    rules := rules + RangeRules(policy.boundRange.value, bound);
  }

  lemma BoundNext(ps: seq<Participant>, i: nat)
    requires i < |ps|
    ensures BoundAddresses(ps[..i + 1]) == BoundAddresses(ps[..i]) + (if ps[i].mac.Some? then {ps[i].address} else {})
  {
    assert ps[..i + 1] == ps[..i] + [ps[i]];
  }

  method RenderBindings(p: Participant, gateway: Option<Ipv4>) returns (rules: seq<Rule>)
    ensures rules == BindingsOf(p, gateway)
  {
    if p.mac.None? { return []; }
    rules := [Rule([IpSaddr(p.address), EtherSaddrNot(p.mac.value)], Drop),
              Rule([ArpSaddr(p.address), EtherSaddrNot(p.mac.value)], Drop)];
    if gateway != Some(p.address) {
      rules := rules + [Rule([EtherSaddr(p.mac.value), IpSaddrNotAmong({p.address})], Drop),
                        Rule([EtherSaddr(p.mac.value), ArpSaddrNotAmong({p.address, UNSPECIFIED})], Drop)];
    }
  }

  method RenderPairsFrom(source: Participant, ps: seq<Participant>, verdict: Verdict) returns (rules: seq<Rule>)
    ensures rules == PairsFrom(source, ps, verdict)
  {
    rules := [];
    for j := 0 to |ps|
      invariant rules == PairsFrom(source, ps[..j], verdict)
    {
      assert ps[..j + 1][..j] == ps[..j];
      if source.address != ps[j].address {
        rules := rules + [Rule([IpSaddr(source.address), IpDaddr(ps[j].address)], verdict)];
      }
    }
    assert ps[..|ps|] == ps;
  }

  method RenderPairs(ps: seq<Participant>, verdict: Verdict) returns (rules: seq<Rule>)
    ensures rules == AllPairs(ps, ps, verdict)
  {
    rules := [];
    for i := 0 to |ps|
      invariant rules == AllPairs(ps[..i], ps, verdict)
    {
      assert ps[..i + 1][..i] == ps[..i];
      var pairs := RenderPairsFrom(ps[i], ps, verdict);
      rules := rules + pairs;
    }
    assert ps[..|ps|] == ps;
  }

  /** Every allowance rule so far, without repeats. */
  method RenderAllowances(ps: seq<Participant>) returns (rules: seq<Rule>)
    ensures ListsAllowances(rules, ps)
  {
    rules := [];
    for i := 0 to |ps|
      invariant ListsAllowances(rules, ps[..i])
    {
      ghost var done := AllowanceRules(ps[..i]);
      for j := 0 to |ps[i].allowances|
        invariant forall r :: r in rules <==>
                    r in done || exists k: nat :: k < j && r == AllowanceRule(ps[i].address, ps[i].allowances[k])
        invariant forall a: nat, b: nat | a < b < |rules| :: rules[a] != rules[b]
      {
        var rule := AllowanceRule(ps[i].address, ps[i].allowances[j]);
        if rule !in rules {
          rules := rules + [rule];
        }
      }
      AllowancesOfNext(ps, i);
    }
    assert ps[..|ps|] == ps;
  }

  lemma AllowancesOfNext(ps: seq<Participant>, i: nat)
    requires i < |ps|
    ensures forall r :: r in AllowanceRules(ps[..i + 1]) <==>
              r in AllowanceRules(ps[..i])
              || exists k: nat :: k < |ps[i].allowances| && r == AllowanceRule(ps[i].address, ps[i].allowances[k])
  {
    assert ps[..i + 1] == ps[..i] + [ps[i]];
    forall r | r in AllowanceRules(ps[..i + 1])
      ensures r in AllowanceRules(ps[..i])
              || exists k: nat :: k < |ps[i].allowances| && r == AllowanceRule(ps[i].address, ps[i].allowances[k])
    {
      var p, a :| p in ps[..i + 1] && a in p.allowances && r == AllowanceRule(p.address, a);
      if p !in ps[..i] {
        var k: nat :| k < |ps[i].allowances| && ps[i].allowances[k] == a;
      }
    }
    forall k: nat | k < |ps[i].allowances|
      ensures AllowanceRule(ps[i].address, ps[i].allowances[k]) in AllowanceRules(ps[..i + 1])
    {
      assert ps[i] in ps[..i + 1] && ps[i].allowances[k] in ps[i].allowances;
    }
    forall r | r in AllowanceRules(ps[..i]) ensures r in AllowanceRules(ps[..i + 1]) {
      var p, a :| p in ps[..i] && a in p.allowances && r == AllowanceRule(p.address, a);
      assert p in ps[..i + 1];
    }
  }

  method RenderBridgePolicy(policy: Policy, requested: IsolationMode)
    returns (mode: IsolationMode, rules: seq<Rule>, ghost allowances: seq<Rule>)
    requires policy.Valid()
    ensures mode == EffectiveMode(policy, requested)
    ensures ListsAllowances(allowances, policy.participants)
    ensures rules == Chain(policy, mode, allowances)
  {
    mode := if requested == Enforce && !policy.eligible then Audit else requested;
    var allowed := RenderAllowances(policy.participants);
    allowances := allowed;
    if mode == Disabled { return mode, [], allowances; }
    var verdict := VerdictOf(mode);
    var bindings := RenderAddressBindings(policy);
    var pairs := RenderPairs(policy.participants, verdict);
    rules := bindings
      + [Rule([EstablishedRelated], Accept), Rule([DnatStatus], Accept),
         Rule([IpSaddr(policy.subnet.FirstHost()), IpDaddr(policy.subnet.broadcast)], Accept)]
      + allowed
      + pairs
      + [Rule([IpSaddrIn(policy.subnet), IpDaddrIn(policy.subnet)], verdict)]
      + Ipv6Rules(policy.ipv6Subnet, verdict);
  }

  // ----------------------------------------------------------------- meaning of a block

  ghost predicate AnyHits(rules: seq<Rule>, f: Frame) { exists r <- rules :: Hits(r, f) }

  ghost predicate AllVerdict(rules: seq<Rule>, v: Verdict) { forall r <- rules :: r.verdict == v }

  /** A block of rules with one verdict decides exactly the frames that one of them hits. */
  lemma {:induction false} BlockDecides(block: seq<Rule>, rest: seq<Rule>, f: Frame, v: Verdict)
    requires AllVerdict(block, v)
    ensures Evaluate(block + rest, f) == if AnyHits(block, f) then v else Evaluate(rest, f)
  {
    if block == [] {
      assert block + rest == rest;
    } else {
      assert (block + rest)[0] == block[0] && (block + rest)[1..] == block[1..] + rest;
      assert block[0] in block;
      assert forall r <- block[1..] :: r in block;
      BlockDecides(block[1..], rest, f, v);
      assert forall r <- block :: r == block[0] || r in block[1..];
    }
  }
}
