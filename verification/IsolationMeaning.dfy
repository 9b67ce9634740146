/** What the compiled bridge ruleset means, frame by frame. */
module IsolationMeaning {
  import opened Basics
  import opened Addresses
  import opened IsolationRules

  // ------------------------------------------------------------- the declarative policy

  /** The frame claims the participant's address from another MAC. */
  predicate Impersonates(p: Participant, f: Frame) {
    && p.mac.Some? && f.mac != p.mac.value
    && ((f.payload.V4? && f.payload.saddr == p.address) || (f.payload.Arp? && f.payload.sender == p.address))
  }

  /** The participant's MAC claims another address; the egress gateway's MAC may, and an ARP probe claims none. */
  predicate Strays(p: Participant, gateway: Option<Ipv4>, f: Frame) {
    && p.mac.Some? && f.mac == p.mac.value && gateway != Some(p.address)
    && ((f.payload.V4? && f.payload.saddr != p.address)
        || (f.payload.Arp? && f.payload.sender != p.address && f.payload.sender != UNSPECIFIED))
  }

  /** Some participant has the address and a bound MAC. */
  predicate IsBound(ps: seq<Participant>, a: Ipv4) { exists p <- ps :: p.mac.Some? && p.address == a }

  /** The frame's source lies in the bound range without belonging to a bound participant. */
  predicate Unbound(range: Ipv4Net, ps: seq<Participant>, f: Frame) {
    || (f.payload.V4? && range.Contains(f.payload.saddr) && !IsBound(ps, f.payload.saddr))
    || (f.payload.Arp? && range.Contains(f.payload.sender) && !IsBound(ps, f.payload.sender))
  }

  ghost predicate Spoofed(policy: Policy, f: Frame) {
    && policy.boundRange.Some?
    && (AnySpoofs(policy.participants, policy.gateway, f)
        || Unbound(policy.boundRange.value, policy.participants, f))
  }

  ghost predicate Allowed(ps: seq<Participant>, f: Frame) {
    && f.payload.V4?
    && exists p, a | p in ps && a in p.allowances ::
         && f.payload.saddr == p.address && f.payload.daddr == a.destination
         && f.payload.transport == ToPort(a.protocol, a.port)
  }

  predicate Tracked(f: Frame) {
    (f.payload.V4? || f.payload.V6?) && (f.payload.ct.establishedOrRelated || f.payload.ct.dnat)
  }

  predicate GatewayBroadcast(policy: Policy, f: Frame)
    requires policy.Valid()
  {
    f.payload.V4? && f.payload.saddr == policy.subnet.FirstHost() && f.payload.daddr == policy.subnet.broadcast
  }

  /** Both ends are current participants with different addresses. */
  ghost predicate BetweenParticipants(ps: seq<Participant>, f: Frame) {
    && f.payload.V4? && f.payload.saddr != f.payload.daddr
    && (exists p <- ps :: p.address == f.payload.saddr) && (exists p <- ps :: p.address == f.payload.daddr)
  }

  predicate BothInSubnet(policy: Policy, f: Frame) {
    f.payload.V4? && policy.subnet.Contains(f.payload.saddr) && policy.subnet.Contains(f.payload.daddr)
  }

  predicate EssentialIcmp6(f: Frame) {
    f.payload.V6? && f.payload.transport.Icmpv6? && !f.payload.transport.kind.OtherIcmp6?
  }

  /** Peer-to-peer IPv6: from the subnet or a link-local address to either, or to a multicast group. */
  predicate PeerIpv6(subnet: Ipv6Net, f: Frame) {
    && f.payload.V6?
    && (subnet.Contains(f.payload.saddr6) || LINK_LOCAL.Contains(f.payload.saddr6))
    && (subnet.Contains(f.payload.daddr6) || LINK_LOCAL.Contains(f.payload.daddr6) ||
        MULTICAST.Contains(f.payload.daddr6))
  }

  // ----------------------------------------------------------------- what each block hits

  lemma HitsOne(a: Match, v: Verdict, f: Frame)
    ensures Hits(Rule([a], v), f) <==> Holds(a, f)
  {
    assert a in [a];
  }

  lemma HitsTwo(a: Match, b: Match, v: Verdict, f: Frame)
    ensures Hits(Rule([a, b], v), f) <==> Holds(a, f) && Holds(b, f)
  {
    assert a in [a, b] && b in [a, b];
  }

  lemma HitsThree(a: Match, b: Match, c: Match, v: Verdict, f: Frame)
    ensures Hits(Rule([a, b, c], v), f) <==> Holds(a, f) && Holds(b, f) && Holds(c, f)
  {
    assert a in [a, b, c] && b in [a, b, c] && c in [a, b, c];
  }

  lemma AnyHitsConcat(a: seq<Rule>, b: seq<Rule>, f: Frame)
    ensures AnyHits(a + b, f) <==> AnyHits(a, f) || AnyHits(b, f)
  {
    if AnyHits(a, f) { var r :| r in a && Hits(r, f); assert r in a + b; }
    if AnyHits(b, f) { var r :| r in b && Hits(r, f); assert r in a + b; }
  }

  lemma AnyHitsPair(a: Rule, b: Rule, f: Frame)
    ensures AnyHits([a, b], f) <==> Hits(a, f) || Hits(b, f)
  {
    assert a in [a, b] && b in [a, b];
  }

  lemma ImpersonationHits(p: Participant, mac: Mac, f: Frame)
    requires p.mac == Some(mac)
    ensures Impersonates(p, f) <==> AnyHits([Rule([IpSaddr(p.address), EtherSaddrNot(mac)], Drop),
                                             Rule([ArpSaddr(p.address), EtherSaddrNot(mac)], Drop)], f)
  {
    HitsTwo(IpSaddr(p.address), EtherSaddrNot(mac), Drop, f);
    HitsTwo(ArpSaddr(p.address), EtherSaddrNot(mac), Drop, f);
    AnyHitsPair(Rule([IpSaddr(p.address), EtherSaddrNot(mac)], Drop),
                Rule([ArpSaddr(p.address), EtherSaddrNot(mac)], Drop), f);
  }

  lemma StrayHits(p: Participant, mac: Mac, gateway: Option<Ipv4>, f: Frame)
    requires p.mac == Some(mac) && gateway != Some(p.address)
    ensures Strays(p, gateway, f) <==> AnyHits([Rule([EtherSaddr(mac), IpSaddrNotAmong({p.address})], Drop),
                                                Rule([EtherSaddr(mac), ArpSaddrNotAmong({p.address, UNSPECIFIED})],
                                                     Drop)], f)
  {
    HitsTwo(EtherSaddr(mac), IpSaddrNotAmong({p.address}), Drop, f);
    HitsTwo(EtherSaddr(mac), ArpSaddrNotAmong({p.address, UNSPECIFIED}), Drop, f);
    AnyHitsPair(Rule([EtherSaddr(mac), IpSaddrNotAmong({p.address})], Drop),
                Rule([EtherSaddr(mac), ArpSaddrNotAmong({p.address, UNSPECIFIED})], Drop), f);
  }

  lemma BindingsHit(p: Participant, gateway: Option<Ipv4>, f: Frame)
    ensures AnyHits(BindingsOf(p, gateway), f) <==> Impersonates(p, f) || Strays(p, gateway, f)
    ensures AllVerdict(BindingsOf(p, gateway), Drop)
  {
    if p.mac.Some? {
      var mac := p.mac.value;
      var own := [Rule([IpSaddr(p.address), EtherSaddrNot(mac)], Drop),
                  Rule([ArpSaddr(p.address), EtherSaddrNot(mac)], Drop)];
      ImpersonationHits(p, mac, f);
      if gateway == Some(p.address) {
        assert BindingsOf(p, gateway) == own;
      } else {
        StrayHits(p, mac, gateway, f);
        AnyHitsConcat(own, [Rule([EtherSaddr(mac), IpSaddrNotAmong({p.address})], Drop),
                            Rule([EtherSaddr(mac), ArpSaddrNotAmong({p.address, UNSPECIFIED})], Drop)], f);
      }
    }
  }

  ghost predicate AnySpoofs(ps: seq<Participant>, gateway: Option<Ipv4>, f: Frame) {
    exists p <- ps :: Impersonates(p, f) || Strays(p, gateway, f)
  }

  lemma {:induction false} AllBindingsHit(ps: seq<Participant>, gateway: Option<Ipv4>, f: Frame)
    ensures AnyHits(AllBindings(ps, gateway), f) <==> AnySpoofs(ps, gateway, f)
    ensures AllVerdict(AllBindings(ps, gateway), Drop)
  {
    if ps != [] {
      var rest, last := ps[..|ps| - 1], ps[|ps| - 1];
      AllBindingsHit(rest, gateway, f);
      BindingsHit(last, gateway, f);
      AnyHitsConcat(AllBindings(rest, gateway), BindingsOf(last, gateway), f);
      AnySpoofsNext(rest, last, gateway, f);
      assert ps == rest + [last];
    }
  }

  lemma AnySpoofsNext(rest: seq<Participant>, last: Participant, gateway: Option<Ipv4>, f: Frame)
    ensures AnySpoofs(rest + [last], gateway, f) <==>
            AnySpoofs(rest, gateway, f) || Impersonates(last, f) || Strays(last, gateway, f)
  {
    assert last in rest + [last];
  }

  lemma RangeHits(range: Ipv4Net, ps: seq<Participant>, f: Frame)
    ensures AnyHits(RangeRules(range, BoundAddresses(ps)), f) <==> Unbound(range, ps, f)
    ensures AllVerdict(RangeRules(range, BoundAddresses(ps)), Drop)
  {
    var rules := RangeRules(range, BoundAddresses(ps));
    var members := set a | a in BoundAddresses(ps) && range.Contains(a);
    AnyHitsPair(rules[0], rules[1], f);
    HitsOne(IpSaddrIn(range), Drop, f);
    HitsOne(ArpSaddrIn(range), Drop, f);
    HitsTwo(IpSaddrIn(range), IpSaddrNotAmong(members), Drop, f);
    HitsTwo(ArpSaddrIn(range), ArpSaddrNotAmong(members), Drop, f);
    assert rules == [rules[0], rules[1]];
    if f.payload.V4? {
      var source := f.payload.saddr;
      assert source in members <==> IsBound(ps, source) && range.Contains(source);
    }
    if f.payload.Arp? {
      var source := f.payload.sender;
      assert source in members <==> IsBound(ps, source) && range.Contains(source);
    }
  }

  /** The binding rules drop exactly the spoofed frames. */
  lemma BindingsCatchSpoofed(policy: Policy, f: Frame)
    ensures AnyHits(AddressBindings(policy), f) <==> Spoofed(policy, f)
    ensures AllVerdict(AddressBindings(policy), Drop)
  {
    if policy.boundRange.Some? {
      var ps, range := policy.participants, policy.boundRange.value;
      AllBindingsHit(ps, policy.gateway, f);
      RangeHits(range, ps, f);
      AnyHitsConcat(AllBindings(ps, policy.gateway), RangeRules(range, BoundAddresses(ps)), f);
    }
  }

  lemma AllowancesHit(order: seq<Rule>, ps: seq<Participant>, f: Frame)
    requires ListsAllowances(order, ps)
    ensures AnyHits(order, f) <==> Allowed(ps, f)
    ensures AllVerdict(order, Accept)
  {
    forall p, a | p in ps && a in p.allowances
      ensures AllowanceRule(p.address, a) in order
      ensures Hits(AllowanceRule(p.address, a), f) <==>
              f.payload.V4? && f.payload.saddr == p.address && f.payload.daddr == a.destination
              && f.payload.transport == ToPort(a.protocol, a.port)
    {
      assert AllowanceRule(p.address, a) in AllowanceRules(ps);
      HitsThree(IpSaddr(p.address), IpDaddr(a.destination), Dport(a.protocol, a.port), Accept, f);
    }
    if AnyHits(order, f) {
      var r :| r in order && Hits(r, f);
      assert r in AllowanceRules(ps);
      var p, a :| p in ps && a in p.allowances && r == AllowanceRule(p.address, a);
    }
    if Allowed(ps, f) {
      var p, a :| p in ps && a in p.allowances && f.payload.saddr == p.address && f.payload.daddr == a.destination
                  && f.payload.transport == ToPort(a.protocol, a.port);
      assert AllowanceRule(p.address, a) in order;
    }
    forall r <- order ensures r.verdict == Accept {
      assert r in AllowanceRules(ps);
    }
  }

  lemma {:induction false} PairsFromHit(source: Participant, ps: seq<Participant>, v: Verdict, f: Frame)
    ensures AnyHits(PairsFrom(source, ps, v), f) <==>
            f.payload.V4? && f.payload.saddr == source.address && f.payload.daddr != source.address
            && exists p <- ps :: p.address == f.payload.daddr
    ensures AllVerdict(PairsFrom(source, ps, v), v)
  {
    if ps != [] {
      var rest, last := ps[..|ps| - 1], ps[|ps| - 1];
      PairsFromHit(source, rest, v, f);
      var own := if source.address == last.address then [] else [PairRule(source, last, v)];
      assert PairsFrom(source, ps, v) == PairsFrom(source, rest, v) + own;
      AnyHitsConcat(PairsFrom(source, rest, v), own, f);
      HitsTwo(IpSaddr(source.address), IpDaddr(last.address), v, f);
      assert ps == rest + [last];
      if source.address != last.address { assert PairRule(source, last, v) in own; }
    }
  }

  lemma {:induction false} AllPairsHit(sources: seq<Participant>, ps: seq<Participant>, v: Verdict, f: Frame)
    ensures AnyHits(AllPairs(sources, ps, v), f) <==>
            f.payload.V4? && f.payload.daddr != f.payload.saddr
            && (exists p <- sources :: p.address == f.payload.saddr) && (exists p <- ps :: p.address == f.payload.daddr)
    ensures AllVerdict(AllPairs(sources, ps, v), v)
  {
    if sources != [] {
      var rest, last := sources[..|sources| - 1], sources[|sources| - 1];
      AllPairsHit(rest, ps, v, f);
      PairsFromHit(last, ps, v, f);
      AnyHitsConcat(AllPairs(rest, ps, v), PairsFrom(last, ps, v), f);
      assert sources == rest + [last];
    }
  }

  lemma FixedAcceptsHit(policy: Policy, f: Frame)
    requires policy.Valid()
    ensures AllVerdict(FixedAccepts(policy), Accept)
    ensures AnyHits(FixedAccepts(policy), f) <==> Tracked(f) || GatewayBroadcast(policy, f)
  {
    var a, b := Rule([EstablishedRelated], Accept), Rule([DnatStatus], Accept);
    var c := Rule([IpSaddr(policy.subnet.FirstHost()), IpDaddr(policy.subnet.broadcast)], Accept);
    HitsOne(EstablishedRelated, Accept, f);
    HitsOne(DnatStatus, Accept, f);
    HitsTwo(IpSaddr(policy.subnet.FirstHost()), IpDaddr(policy.subnet.broadcast), Accept, f);
    AnyHitsPair(a, b, f);
    AnyHitsConcat([a, b], [c], f);
    assert c in [c];
    assert [a, b] + [c] == FixedAccepts(policy);
  }

  lemma PeerRuleHits(subnet: Ipv6Net, v: Verdict, f: Frame)
    ensures Hits(Rule([Ip6SaddrAmong([subnet, LINK_LOCAL]), Ip6DaddrAmong([subnet, LINK_LOCAL, MULTICAST])], v), f)
            <==> PeerIpv6(subnet, f)
  {
    var from, to := [subnet, LINK_LOCAL], [subnet, LINK_LOCAL, MULTICAST];
    HitsTwo(Ip6SaddrAmong(from), Ip6DaddrAmong(to), v, f);
    assert from[0] in from && from[1] in from;
    assert to[0] in to && to[1] in to && to[2] in to;
  }

  lemma Ipv6RulesDecide(subnet: Option<Ipv6Net>, v: Verdict, f: Frame)
    ensures Evaluate(Ipv6Rules(subnet, v), f) ==
            if subnet.Some? && !EssentialIcmp6(f) && PeerIpv6(subnet.value, f) then v else Accept
  {
    if subnet.Some? {
      var icmp, peers := Ipv6Rules(subnet, v)[0], Ipv6Rules(subnet, v)[1];
      HitsOne(icmp.matches[0], Accept, f);
      PeerRuleHits(subnet.value, v, f);
      assert icmp in [icmp] && peers in [peers];
      BlockDecides([icmp], [peers], f, Accept);
      BlockDecides([peers], [], f, v);
      assert [icmp] + [peers] == Ipv6Rules(subnet, v) && [peers] + [] == [peers];
    }
  }

  // ---------------------------------------------------------------------- the whole chain

  function Tail(policy: Policy, v: Verdict): seq<Rule> {
    [Rule([IpSaddrIn(policy.subnet), IpDaddrIn(policy.subnet)], v)] + Ipv6Rules(policy.ipv6Subnet, v)
  }

  lemma TailMeaning(policy: Policy, v: Verdict, f: Frame)
    ensures Evaluate(AllPairs(policy.participants, policy.participants, v) + Tail(policy, v), f) ==
            if BetweenParticipants(policy.participants, f) || BothInSubnet(policy, f) then v
            else if policy.ipv6Subnet.Some? && !EssentialIcmp6(f) && PeerIpv6(policy.ipv6Subnet.value, f) then v
            else Accept
  {
    var ps := policy.participants;
    var subnet := [Rule([IpSaddrIn(policy.subnet), IpDaddrIn(policy.subnet)], v)];
    AllPairsHit(ps, ps, v, f);
    HitsTwo(IpSaddrIn(policy.subnet), IpDaddrIn(policy.subnet), v, f);
    assert subnet[0] in subnet;
    Ipv6RulesDecide(policy.ipv6Subnet, v, f);
    BlockDecides(AllPairs(ps, ps, v), Tail(policy, v), f, v);
    BlockDecides(subnet, Ipv6Rules(policy.ipv6Subnet, v), f, v);
  }

  function FixedAccepts(policy: Policy): seq<Rule>
    requires policy.Valid()
  {
    [Rule([EstablishedRelated], Accept), Rule([DnatStatus], Accept),
     Rule([IpSaddr(policy.subnet.FirstHost()), IpDaddr(policy.subnet.broadcast)], Accept)]
  }

  lemma ChainSplits(policy: Policy, mode: IsolationMode, order: seq<Rule>)
    requires policy.Valid() && mode != Disabled
    ensures Chain(policy, mode, order) ==
            AddressBindings(policy)
            + (FixedAccepts(policy)
               + (order + (AllPairs(policy.participants, policy.participants, VerdictOf(mode)) +
                           Tail(policy, VerdictOf(mode)))))
  {
  }

  /** Every frame, in audit and in enforce, for whatever order the allowance rules are listed in. */
  lemma ChainMeaning(policy: Policy, mode: IsolationMode, order: seq<Rule>, f: Frame)
    requires policy.Valid() && mode != Disabled && ListsAllowances(order, policy.participants)
    ensures Evaluate(Chain(policy, mode, order), f) ==
            if Spoofed(policy, f) then Drop
            else if Tracked(f) || GatewayBroadcast(policy, f) || Allowed(policy.participants, f) then Accept
            else if BetweenParticipants(policy.participants, f) || BothInSubnet(policy, f) then VerdictOf(mode)
            else if policy.ipv6Subnet.Some? && !EssentialIcmp6(f) && PeerIpv6(policy.ipv6Subnet.value, f)
              then VerdictOf(mode)
            else Accept
  {
    var v := VerdictOf(mode);
    var rest := AllPairs(policy.participants, policy.participants, v) + Tail(policy, v);
    BindingsCatchSpoofed(policy, f);
    FixedAcceptsHit(policy, f);
    AllowancesHit(order, policy.participants, f);
    TailMeaning(policy, v, f);
    BlockDecides(AddressBindings(policy), FixedAccepts(policy) + (order + rest), f, Drop);
    BlockDecides(FixedAccepts(policy), order + rest, f, Accept);
    BlockDecides(order, rest, f, Accept);
    ChainSplits(policy, mode, order);
  }

  /** Every participant lies in the enrolled subnet. */
  ghost predicate InsideSubnet(policy: Policy) {
    forall p <- policy.participants :: policy.subnet.Contains(p.address)
  }

  /**
   Enforcement is exact: an IPv4 frame passes if and only if no binding rule catches it and it is
   established, related or DNATed, or goes from the bridge gateway to broadcast, or is covered by
   a resolved allowance, or has an end outside the subnet.
   */
  lemma EnforceIsExact(policy: Policy, order: seq<Rule>, f: Frame)
    requires policy.Valid() && ListsAllowances(order, policy.participants) && InsideSubnet(policy) && f.payload.V4?
    ensures Evaluate(Chain(policy, Enforce, order), f) == Accept <==>
            && !Spoofed(policy, f)
            && (Tracked(f) || GatewayBroadcast(policy, f) || Allowed(policy.participants, f) ||
                !BothInSubnet(policy, f))
  {
    ChainMeaning(policy, Enforce, order, f);
  }

  /** Asked to observe, it drops nothing but what the binding rules drop; asked for nothing, nothing at all. */
  lemma AuditDropsOnlySpoofed(policy: Policy, order: seq<Rule>, f: Frame)
    requires policy.Valid() && ListsAllowances(order, policy.participants)
    ensures Evaluate(Chain(policy, EffectiveMode(policy, Audit), order), f) == Drop <==> Spoofed(policy, f)
    ensures Evaluate(Chain(policy, EffectiveMode(policy, Disabled), order), f) == Accept
  {
    ChainMeaning(policy, Audit, order, f);
  }

  /** IPv6 between peers has no allowances: in enforce only tracked flows and essential ICMPv6 pass. */
  lemma Ipv6PeersAreIsolated(policy: Policy, order: seq<Rule>, f: Frame)
    requires policy.Valid() && ListsAllowances(order, policy.participants) && f.payload.V6?
    ensures Evaluate(Chain(policy, Enforce, order), f) == Accept <==>
            Tracked(f) || EssentialIcmp6(f) || policy.ipv6Subnet.None? || !PeerIpv6(policy.ipv6Subnet.value, f)
  {
    ChainMeaning(policy, Enforce, order, f);
  }

  /**
   What asking for enforcement comes to: whether a frame is dropped is decided by its spoofing
   alone when the policy is incomplete, and by the isolation rules as well when it is complete.
   */
  lemma RequestedEnforcementMeans(policy: Policy, order: seq<Rule>, f: Frame)
    requires policy.Valid() && ListsAllowances(order, policy.participants)
    ensures Evaluate(Chain(policy, EffectiveMode(policy, Enforce), order), f) == Drop <==>
            || Spoofed(policy, f)
            || (&& policy.eligible && !Tracked(f) && !GatewayBroadcast(policy, f) && !Allowed(policy.participants, f)
                && (|| BetweenParticipants(policy.participants, f)
                    || BothInSubnet(policy, f)
                    || (policy.ipv6Subnet.Some? && !EssentialIcmp6(f) && PeerIpv6(policy.ipv6Subnet.value, f))))
  {
    ChainMeaning(policy, EffectiveMode(policy, Enforce), order, f);
  }

  function SourceOf(f: Frame): Option<Ipv4> {
    if f.payload.V4? then Some(f.payload.saddr) else if f.payload.Arp? then Some(f.payload.sender) else None
  }

  /**
   With a bound range, in audit as in enforce: a frame that passes from a source in the range
   carries the MAC bound to that source, so an unbound source in the range fails closed; and a
   frame that passes from a bound MAC, other than the gateway's, carries the bound address.
   */
  lemma PassingFramesAreBound(policy: Policy, mode: IsolationMode, order: seq<Rule>, f: Frame)
    requires policy.Valid() && mode != Disabled && ListsAllowances(order, policy.participants)
    requires policy.boundRange.Some? && SourceOf(f).Some?
    requires Evaluate(Chain(policy, mode, order), f) == Accept
    ensures policy.boundRange.value.Contains(SourceOf(f).value) ==>
              exists p <- policy.participants :: p.address == SourceOf(f).value && p.mac == Some(f.mac)
    ensures forall p <- policy.participants | p.mac.Some? && p.address == SourceOf(f).value :: f.mac == p.mac.value
    ensures forall p <- policy.participants | p.mac == Some(f.mac) && policy.gateway != Some(p.address) ::
              SourceOf(f).value == p.address || (f.payload.Arp? && f.payload.sender == UNSPECIFIED)
  {
    ChainMeaning(policy, mode, order, f);
    forall p <- policy.participants ensures !Impersonates(p, f) && !Strays(p, policy.gateway, f) {
      assert !Spoofed(policy, f);
    }
    if policy.boundRange.value.Contains(SourceOf(f).value) {
      assert IsBound(policy.participants, SourceOf(f).value);
      var p :| p in policy.participants && p.mac.Some? && p.address == SourceOf(f).value;
      assert !Impersonates(p, f);
    }
  }

  /** Sorting the participants, or the allowance rules, changes no verdict. */
  lemma ListingOrderIsIrrelevant(a: Policy, b: Policy, mode: IsolationMode, orderA: seq<Rule>, orderB: seq<Rule>,
                                 f: Frame)
    requires a.Valid() && b == a.(participants := b.participants)
    requires forall p :: p in a.participants <==> p in b.participants
    requires ListsAllowances(orderA, a.participants) && ListsAllowances(orderB, b.participants)
    ensures Evaluate(Chain(a, mode, orderA), f) == Evaluate(Chain(b, mode, orderB), f)
  {
    if mode != Disabled {
      ChainMeaning(a, mode, orderA, f);
      ChainMeaning(b, mode, orderB, f);
      forall address ensures IsBound(a.participants, address) == IsBound(b.participants, address) {}
      assert Spoofed(a, f) == Spoofed(b, f);
      assert Allowed(a.participants, f) == Allowed(b.participants, f);
    }
  }
}
