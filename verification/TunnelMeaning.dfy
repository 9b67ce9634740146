/** What the tunnel's state and the kinds of change say of the profiles behind them. */
module TunnelMeaning {
  import opened Basics
  import opened WireGuardProfile
  import opened WireGuardRender
  import opened WireGuardParsed
  import opened WireGuardLines
  import opened WireGuardRoundTrip
  import opened Tunnel
  import opened ProfileManager

  // -------------------------------------------------------------------------------- diff

  /** Key, port, addresses and MTU, all of the interface that a running one cannot take over, and how many peers. */
  predicate SameShape(a: Profile, b: Profile) {
    && a.interface.(dns := []) == b.interface.(dns := []) && |a.peers| == |b.peers|
  }

  /** The peers read alike: they differ at most in how an endpoint's family is recorded. */
  predicate PeersReadAlike(codec: Codec, a: Profile, b: Profile) {
    RetaggedPeers(codec, a.peers) == RetaggedPeers(codec, b.peers)
  }

  predicate SameRanges(a: Profile, b: Profile)
    requires |a.peers| == |b.peers|
  {
    forall i | 0 <= i < |a.peers| :: a.peers[i].allowedIps == b.peers[i].allowedIps
  }

  lemma RendersAlikeIff(codec: Codec, a: Profile, b: Profile)
    requires Faithful(codec) && Complete(codec, a) && Complete(codec, b)
    ensures Render(codec, a) == Render(codec, b) <==> SameShape(a, b) && PeersReadAlike(codec, a, b)
  {
    if Render(codec, a) == Render(codec, b) {
      RenderDetermines(codec, a, b);
      assert |a.peers| == |RetaggedPeers(codec, a.peers)|;
    }
    if SameShape(a, b) && PeersReadAlike(codec, a, b) {
      RetaggingKeepsLines(codec, a.peers);
      RetaggingKeepsLines(codec, b.peers);
      SameInterfaceSameLines(codec, a.interface, b.interface);
    }
  }

  lemma SameInterfaceSameLines(codec: Codec, i: Interface, j: Interface)
    requires i.(dns := []) == j.(dns := [])
    ensures HeadLines(codec, i) == HeadLines(codec, j) && TailLines(i) == TailLines(j)
  {
    assert i.privateKey == i.(dns := []).privateKey && i.addresses == i.(dns := []).addresses;
    assert i.listenPort == i.(dns := []).listenPort && i.mtu == i.(dns := []).mtu;
  }

  lemma ReadAlikeRanges(codec: Codec, a: Profile, b: Profile)
    requires PeersReadAlike(codec, a, b) && |a.peers| == |b.peers|
    ensures SameRanges(a, b)
  {
    forall i | 0 <= i < |a.peers| ensures a.peers[i].allowedIps == b.peers[i].allowedIps {
      assert RetaggedPeers(codec, a.peers)[i] == RetaggedPeers(codec, b.peers)[i];
    }
  }

  lemma TransportIsShape(a: Profile, b: Profile)
    ensures SameTransport(a, b) <==> SameShape(a, b) && a.peers == b.peers
    ensures SameShape(a, b) <==>
            && a.interface.privateKey == b.interface.privateKey && a.interface.addresses == b.interface.addresses
            && a.interface.listenPort == b.interface.listenPort && a.interface.mtu == b.interface.mtu
            && |a.peers| == |b.peers|
  {
    if a.interface.(dns := []) == b.interface.(dns := []) {
      SameFields(a.interface, b.interface);
    }
  }

  lemma SameFields(i: Interface, j: Interface)
    requires i.(dns := []) == j.(dns := [])
    ensures i.privateKey == j.privateKey && i.addresses == j.addresses && i.listenPort == j.listenPort && i.mtu == j.mtu
  {
    assert i.privateKey == i.(dns := []).privateKey && i.addresses == i.(dns := []).addresses;
    assert i.listenPort == i.(dns := []).listenPort && i.mtu == i.(dns := []).mtu;
  }

  /** The change made, by what two profiles have in common. */
  function KindBy(text: bool, dns: bool, shape: bool, peers: bool, ranges: bool): ApplyKind {
    if text && dns then NoChange
    else if shape && peers then DnsReload
    else if !shape then TunnelRecycle
    else if !ranges then SyncConfAndRoutes
    else SyncConf
  }

  lemma DiffBy(codec: Codec, a: Profile, b: Profile, text: bool, shape: bool, ranges: bool)
    requires text == (Render(codec, a) == Render(codec, b)) && shape == SameShape(a, b)
    requires ranges == (shape && SameRanges(a, b))
    ensures Diff(codec, a, b) == KindBy(text, a.interface.dns == b.interface.dns, shape, a.peers == b.peers, ranges)
  {
    TransportIsShape(a, b);
  }

  /**
   Which change is made between two complete profiles, each exactly when: none if they read alike and
   agree on DNS; a reload if only DNS differs; a recycle if key, port, addresses, MTU or the number of
   peers differ; otherwise a sync, with routes if some peer's ranges differ.
   */
  lemma KindIff(codec: Codec, a: Profile, b: Profile)
    requires Faithful(codec) && Complete(codec, a) && Complete(codec, b)
    ensures var kind, sameDns := Diff(codec, a, b), a.interface.dns == b.interface.dns;
            && (kind.TunnelRecycle? <==> !SameShape(a, b))
            && (kind.NoChange? <==> SameShape(a, b) && PeersReadAlike(codec, a, b) && sameDns)
            && (kind.DnsReload? <==> SameShape(a, b) && a.peers == b.peers && !sameDns)
            && (kind.SyncConfAndRoutes? <==> SameShape(a, b) && !SameRanges(a, b))
            && (kind.SyncConf? <==>
                  && SameShape(a, b) && SameRanges(a, b) && a.peers != b.peers
                  && !(PeersReadAlike(codec, a, b) && sameDns))
  {
    var shape := SameShape(a, b);
    var text, ranges := Render(codec, a) == Render(codec, b), shape && SameRanges(a, b);
    RendersAlikeIff(codec, a, b);
    if shape && PeersReadAlike(codec, a, b) { ReadAlikeRanges(codec, a, b); }
    assert a.peers == b.peers ==> PeersReadAlike(codec, a, b);
    DiffBy(codec, a, b, text, shape, ranges);
  }

  // -------------------------------------------------------------------- a settled tunnel

  lemma {:induction false} Ipv4OnlyHas(addrs: seq<Addr>, v: nat)
    ensures v in Ipv4Only(addrs) <==> Addr(false, v) in addrs
  {
    if addrs != [] {
      Ipv4OnlyHas(addrs[..|addrs| - 1], v);
      assert addrs == addrs[..|addrs| - 1] + [addrs[|addrs| - 1]];
    }
  }

  /**
   The routes of a settled tunnel, in terms of the settings: exactly the profile's IPv4 DNS servers, the
   port-mapping gateway and, while DNS is served, the IPv4 addresses among explicit upstreams; and IPv6
   leads into the tunnel exactly if it is routed and the profile has an address and a peer for all of it.
   */
  lemma SettledRoutesIff(config: Config, k: Kernel, p: Profile, v: nat)
    requires Settled(config, k, p)
    ensures v in k.services <==>
            || Addr(false, v) in p.interface.dns
            || config.natPmpGateway == Some(v)
            || (config.dnsEnabled && config.upstream.Explicit? && Some(Addr(false, v)) in config.upstream.addresses)
    ensures k.default6 <==>
            && config.ipv6Routing && (exists n <- p.interface.addresses :: n.v6)
            && exists peer <- p.peers :: exists n <- peer.allowedIps :: n.v6 && n.length == 0
    ensures k.default4 && k.fence4 == Fence(true, true, true) && (config.ipv6Routing ==> k.fence6 == k.fence4)
  {
    Ipv4OnlyHas(p.interface.dns, v);
  }

  /** The peers are the same but for how endpoints' families are recorded. */
  ghost predicate SamePeer(a: Peer, b: Peer) {
    && a.publicKey == b.publicKey && a.presharedKey == b.presharedKey
    && a.allowedIps == b.allowedIps && a.keepalive == b.keepalive
    && (a.endpoint.Some? <==> b.endpoint.Some?)
    && (a.endpoint.Some? ==>
          a.endpoint.value.host == b.endpoint.value.host && a.endpoint.value.port == b.endpoint.value.port)
  }

  /** The interface of a settled tunnel tells profiles apart in everything but DNS and endpoint families. */
  lemma LinkIff(a: Profile, b: Profile)
    ensures LinkOf(a) == LinkOf(b) <==>
            SameShape(a, b) && forall i | 0 <= i < |a.peers| :: SamePeer(a.peers[i], b.peers[i])
  {
    TransportIsShape(a, b);
    if LinkOf(a) == LinkOf(b) {
      assert |WirePeers(a.peers)| == |a.peers| && |WirePeers(b.peers)| == |b.peers|;
      forall i | 0 <= i < |a.peers| ensures SamePeer(a.peers[i], b.peers[i]) {
        assert WirePeers(a.peers)[i] == Wire(a.peers[i]) && WirePeers(b.peers)[i] == Wire(b.peers[i]);
        WireIff(a.peers[i], b.peers[i]);
      }
    }
    if SameShape(a, b) && forall i | 0 <= i < |a.peers| :: SamePeer(a.peers[i], b.peers[i]) {
      forall i | 0 <= i < |a.peers| ensures WirePeers(a.peers)[i] == WirePeers(b.peers)[i] {
        WireIff(a.peers[i], b.peers[i]);
      }
      assert WirePeers(a.peers) == WirePeers(b.peers);
    }
  }

  lemma WireIff(a: Peer, b: Peer)
    ensures Wire(a) == Wire(b) <==> SamePeer(a, b)
  {
  }

  // ------------------------------------------------------------------------ DNS upstream

  /** Address `i` of the list is its first IPv4 one. */
  ghost predicate FirstIpv4(addrs: seq<Addr>, i: nat) {
    i < |addrs| && !addrs[i].v6 && forall j | 0 <= j < i :: addrs[j].v6
  }

  lemma {:induction false} FirstOfIpv4Only(addrs: seq<Addr>, i: nat)
    requires FirstIpv4(addrs, i)
    ensures Ipv4Only(addrs) != [] && Ipv4Only(addrs)[0] == addrs[i].value
  {
    var n := |addrs| - 1;
    if i < n {
      FirstOfIpv4Only(addrs[..n], i);
    } else {
      NoneIsIpv4(addrs[..n]);
    }
  }

  lemma {:induction false} NoneIsIpv4(addrs: seq<Addr>)
    requires forall j | 0 <= j < |addrs| :: addrs[j].v6
    ensures Ipv4Only(addrs) == []
  {
    if addrs != [] { NoneIsIpv4(addrs[..|addrs| - 1]); }
  }

  /**
   Where queries are sent: to the profile's first IPv4 server, or to the first explicit upstream; a
   profile is refused exactly if the first is asked for and there is none.
   */
  lemma UpstreamIff(config: Config, p: Profile)
    ensures config.upstream.FromProfile? ==>
              && (forall i: nat | FirstIpv4(p.interface.dns, i) :: DnsUpstream(config, p) == Some(p.interface.dns[i]))
              && ((forall a <- p.interface.dns :: a.v6) ==> DnsUpstream(config, p) == None)
    ensures config.upstream.Explicit? ==>
              var addresses := config.upstream.addresses;
              DnsUpstream(config, p) == if addresses == [] then None else addresses[0]
    ensures !Capable(config, p) <==>
            config.dnsEnabled && config.upstream.FromProfile? && forall a <- p.interface.dns :: a.v6
  {
    var dns := p.interface.dns;
    forall i: nat | FirstIpv4(dns, i) ensures Ipv4Only(dns) != [] && Ipv4Only(dns)[0] == dns[i].value {
      FirstOfIpv4Only(dns, i);
    }
    if forall a <- dns :: a.v6 {
      NoneIsIpv4(dns);
    } else {
      var a :| a in dns && !a.v6;
      Ipv4OnlyHas(dns, a.value);
      assert a == Addr(false, a.value);
    }
  }
}
