/**
 The gateway's tunnel interface and routes, the difference between two profiles, and the actions that
 take the one to the other (src/wireguard.rs, src/profile_manager.rs, src/runtime.rs).
 */
module Tunnel {
  import opened Basics
  import opened WireGuardProfile
  import opened WireGuardRender
  import opened WireGuardParsed
  import opened WireGuardLines
  import opened WireGuardRoundTrip

  // ------------------------------------------------------------------------------ state

  datatype Upstream = FromProfile | Explicit(addresses: seq<Option<Addr>>)

  datatype Config = Config(natPmpGateway: Option<nat>, dnsEnabled: bool, upstream: Upstream, ipv6Routing: bool)

  /** A peer as the interface knows it: an endpoint is a host and a port. */
  datatype WirePeer = WirePeer(
    publicKey: string, presharedKey: Option<string>, endpoint: Option<(string, nat)>, allowedIps: seq<Net>,
    keepalive: Option<nat>)

  datatype Link = Link(
    privateKey: Option<string>, listenPort: Option<nat>, addresses: seq<Net>, mtu: Option<nat>, peers: seq<WirePeer>)

  /** What outlives the interface, per family: the last-resort route, and the gateway's and the subnet's rules. */
  datatype Fence = Fence(unreachable: bool, local: bool, subnet: bool)

  const FENCED := Fence(true, true, true)

  /** The interface, the routes through it, and the fence of each family. */
  datatype Kernel = Kernel(
    link: Option<Link>, services: set<nat>, default4: bool, default6: bool, fence4: Fence, fence6: Fence)
  {
    /** Routes through a device go with it. */
    predicate Valid() { link.None? ==> services == {} && !default4 && !default6 }
  }

  // ------------------------------------------------------------------ what a profile asks

  function Ipv4Only(addrs: seq<Addr>): seq<nat> {
    if addrs == [] then []
    else Ipv4Only(addrs[..|addrs| - 1]) + (if addrs[|addrs| - 1].v6 then [] else [addrs[|addrs| - 1].value])
  }

  function Ipv4Dns(p: Profile): seq<nat> { Ipv4Only(p.interface.dns) }

  predicate CarriesIpv6(p: Profile) {
    && (exists n <- p.interface.addresses :: n.v6)
    && exists peer <- p.peers :: exists n <- peer.allowedIps :: n.v6 && n.length == 0
  }

  /** Routes the gateway needs whatever the profile: the port mapping gateway and explicit DNS upstreams. */
  function CapabilityRoutes(config: Config): set<nat> {
    (if config.natPmpGateway.Some? then {config.natPmpGateway.value} else {})
    + (if config.dnsEnabled && config.upstream.Explicit?
       then set a | a in config.upstream.addresses && a.Some? && !a.value.v6 :: a.value.value else {})
  }

  function ServiceRoutes(config: Config, dns: seq<nat>): set<nat> { (set a | a in dns) + CapabilityRoutes(config) }

  function WireEndpoint(e: Option<Endpoint>): Option<(string, nat)> {
    if e.None? then None else Some((e.value.host, e.value.port))
  }

  function Wire(p: Peer): WirePeer {
    WirePeer(p.publicKey, p.presharedKey, WireEndpoint(p.endpoint), p.allowedIps, p.keepalive)
  }

  function WirePeers(peers: seq<Peer>): seq<WirePeer> { seq(|peers|, i requires 0 <= i < |peers| => Wire(peers[i])) }

  function LinkOf(p: Profile): Link {
    Link(p.interface.privateKey, p.interface.listenPort, p.interface.addresses, p.interface.mtu, WirePeers(p.peers))
  }

  /** The tunnel and its routes are those of the profile. */
  predicate Settled(config: Config, k: Kernel, p: Profile) {
    && k.link == Some(LinkOf(p)) && k.services == ServiceRoutes(config, Ipv4Dns(p))
    && k.default4 && k.fence4 == FENCED
    && (if config.ipv6Routing then k.default6 == CarriesIpv6(p) && k.fence6 == FENCED else !k.default6)
  }

  // ---------------------------------------------------------------------------- actions

  function Configured(config: Config, k: Kernel, dns: seq<nat>, carries: bool): Kernel {
    var four := k.(fence4 := FENCED, default4 := true, services := k.services + ServiceRoutes(config, dns));
    if config.ipv6Routing then four.(fence6 := FENCED, default6 := carries) else four
  }

  /** The previous DNS routes that nothing needs any more. */
  function Obsolete(previous: seq<nat>, desired: set<nat>): set<nat> { set a | a in previous && a !in desired }

  function Reconciled(config: Config, k: Kernel, previous: seq<nat>, dns: seq<nat>, carries: bool): Kernel {
    var configured := Configured(config, k, dns, carries);
    configured.(services := configured.services - Obsolete(previous, ServiceRoutes(config, dns)))
  }

  function Down(k: Kernel): Kernel { k.(link := None, services := {}, default4 := false, default6 := false) }

  function Up(config: Config, k: Kernel, p: Profile): Kernel {
    Configured(config, k.(link := Some(LinkOf(p))), Ipv4Dns(p), CarriesIpv6(p))
  }

  function Recycled(config: Config, k: Kernel, p: Profile, previous: seq<nat>): Kernel {
    Reconciled(config, Up(config, Down(k), p), previous, Ipv4Dns(p), CarriesIpv6(p))
  }

  /** `wg syncconf` replaces key, port and peers by the file's. */
  function Synced(k: Kernel, p: Profile): Kernel
    requires k.link.Some?
  {
    k.(link := Some(k.link.value.(privateKey := p.interface.privateKey, listenPort := p.interface.listenPort,
                                  peers := WirePeers(p.peers))))
  }

  // -------------------------------------------------------------------------------- diff

  datatype ApplyKind = NoChange | DnsReload | SyncConf | SyncConfAndRoutes | TunnelRecycle

  predicate SameTransport(a: Profile, b: Profile) {
    && a.interface.privateKey == b.interface.privateKey && a.interface.addresses == b.interface.addresses
    && a.interface.listenPort == b.interface.listenPort && a.interface.mtu == b.interface.mtu
    && a.peers == b.peers
  }

  function Diff(codec: Codec, a: Profile, b: Profile): ApplyKind {
    if Render(codec, a) == Render(codec, b) && a.interface.dns == b.interface.dns then NoChange
    else if SameTransport(a, b) then DnsReload
    else if a.interface.privateKey != b.interface.privateKey || a.interface.addresses != b.interface.addresses
            || a.interface.listenPort != b.interface.listenPort || a.interface.mtu != b.interface.mtu
            || |a.peers| != |b.peers|
    then TunnelRecycle
    else if exists i | 0 <= i < |a.peers| :: a.peers[i].allowedIps != b.peers[i].allowedIps then SyncConfAndRoutes
    else SyncConf
  }

  /** The action a difference calls for, when nothing fails. */
  function Applied(config: Config, k: Kernel, kind: ApplyKind, p: Profile, previous: seq<nat>): Kernel
    requires k.link.Some?
  {
    match kind
    case NoChange => k
    case DnsReload => Reconciled(config, k, previous, Ipv4Dns(p), CarriesIpv6(p))
    case SyncConf => Reconciled(config, Synced(k, p), previous, Ipv4Dns(p), CarriesIpv6(p))
    case SyncConfAndRoutes => Reconciled(config, Synced(k, p), previous, Ipv4Dns(p), CarriesIpv6(p))
    case TunnelRecycle => Recycled(config, k, p, previous)
  }

  // ------------------------------------------------------------------------- refinement

  /** Whatever the state before, a recycle settles the profile. */
  lemma RecycleSettles(config: Config, k: Kernel, p: Profile, previous: seq<nat>)
    ensures Settled(config, Recycled(config, k, p, previous), p)
  {
  }

  lemma SettledIsRecycled(config: Config, k: Kernel, before: Kernel, p: Profile, previous: seq<nat>)
    requires Settled(config, k, p)
    requires !config.ipv6Routing ==> k.fence6 == before.fence6
    ensures k == Recycled(config, before, p, previous)
  {
    RecycleSettles(config, before, p, previous);
  }

  /** Between settled profiles, a reconcile leaves exactly the new profile's routes. */
  lemma RoutesMove(config: Config, previous: seq<nat>, dns: seq<nat>)
    ensures var desired := ServiceRoutes(config, dns);
            ServiceRoutes(config, previous) + desired - Obsolete(previous, desired) == desired
  {
  }

  lemma SameTextSameTunnel(codec: Codec, a: Profile, b: Profile)
    requires Faithful(codec) && Complete(codec, a) && Complete(codec, b) && Render(codec, a) == Render(codec, b)
    ensures LinkOf(a) == LinkOf(b) && CarriesIpv6(a) == CarriesIpv6(b)
  {
    RenderDetermines(codec, a, b);
    assert |a.peers| == |RetaggedPeers(codec, a.peers)| == |b.peers|;
    assert a.interface.addresses == a.interface.(dns := []).addresses == b.interface.addresses;
    forall i | 0 <= i < |a.peers|
      ensures Wire(a.peers[i]) == Wire(b.peers[i]) && a.peers[i].allowedIps == b.peers[i].allowedIps
    {
      assert RetaggedPeers(codec, a.peers)[i] == RetaggedPeers(codec, b.peers)[i];
      RetaggedWire(codec, a.peers[i]);
      RetaggedWire(codec, b.peers[i]);
    }
    assert WirePeers(a.peers) == WirePeers(b.peers);
    CarriesByRanges(a, b);
  }

  lemma RetaggedWire(codec: Codec, p: Peer)
    ensures Wire(RetaggedPeer(codec, p)) == Wire(p) && RetaggedPeer(codec, p).allowedIps == p.allowedIps
  {
  }

  lemma CarriesByRanges(a: Profile, b: Profile)
    requires a.interface.addresses == b.interface.addresses && |a.peers| == |b.peers|
    requires forall i | 0 <= i < |a.peers| :: a.peers[i].allowedIps == b.peers[i].allowedIps
    ensures CarriesIpv6(a) == CarriesIpv6(b)
  {
    assert forall i | 0 <= i < |a.peers| :: a.peers[i] in a.peers && b.peers[i] in b.peers;
  }

  lemma ReconcileSettles(config: Config, k: Kernel, a: Profile, b: Profile)
    requires k.link == Some(LinkOf(b)) && Settled(config, k.(link := Some(LinkOf(a))), a)
    ensures Settled(config, Reconciled(config, k, Ipv4Dns(a), Ipv4Dns(b), CarriesIpv6(b)), b)
  {
    RoutesMove(config, Ipv4Dns(a), Ipv4Dns(b));
  }

  lemma SyncTakesOver(k: Kernel, a: Profile, b: Profile)
    requires k.link == Some(LinkOf(a)) && a.interface.addresses == b.interface.addresses &&
             a.interface.mtu == b.interface.mtu
    ensures Synced(k, b) == k.(link := Some(LinkOf(b)))
  {
  }

  /** What each kind of difference says of the profiles. */
  lemma DiffMeans(codec: Codec, a: Profile, b: Profile)
    ensures var kind := Diff(codec, a, b);
            && (kind.NoChange? ==> Render(codec, a) == Render(codec, b) && a.interface.dns == b.interface.dns)
            && (kind.DnsReload? ==> SameTransport(a, b))
            && (kind.SyncConf? || kind.SyncConfAndRoutes? ==>
                  a.interface.addresses == b.interface.addresses && a.interface.mtu == b.interface.mtu)
  {
  }

  lemma HotLeavesSettled(codec: Codec, config: Config, k: Kernel, a: Profile, b: Profile)
    requires Faithful(codec) && Complete(codec, a) && Complete(codec, b) && Settled(config, k, a)
    ensures Settled(config, Applied(config, k, Diff(codec, a, b), b, Ipv4Dns(a)), b)
  {
    var kind := Diff(codec, a, b);
    DiffMeans(codec, a, b);
    if kind.NoChange? { SameTextSameTunnel(codec, a, b); }
    KindLeavesSettled(config, k, kind, a, b);
  }

  lemma KindLeavesSettled(config: Config, k: Kernel, kind: ApplyKind, a: Profile, b: Profile)
    requires Settled(config, k, a)
    requires kind.NoChange? ==>
               LinkOf(a) == LinkOf(b) && CarriesIpv6(a) == CarriesIpv6(b) && a.interface.dns == b.interface.dns
    requires kind.DnsReload? ==> SameTransport(a, b)
    requires kind.SyncConf? || kind.SyncConfAndRoutes? ==>
               a.interface.addresses == b.interface.addresses && a.interface.mtu == b.interface.mtu
    ensures Settled(config, Applied(config, k, kind, b, Ipv4Dns(a)), b)
  {
    match kind
    case NoChange =>
    case DnsReload => ReconcileSettles(config, k, a, b);
    case TunnelRecycle => RecycleSettles(config, k, b, Ipv4Dns(a));
    case _ =>
      SyncTakesOver(k, a, b);
      ReconcileSettles(config, Synced(k, b), a, b);
  }

  lemma OthersStay(config: Config, k: Kernel, kind: ApplyKind, p: Profile, previous: seq<nat>)
    requires k.link.Some? && !config.ipv6Routing
    ensures Applied(config, k, kind, p, previous).fence6 == k.fence6
  {
  }

  /**
   Hot apply refines recycling: from the tunnel of profile `a`, the action chosen by their difference
   leaves exactly the kernel that taking the tunnel down and up again with `b` would.
   */
  lemma HotApplyRefinesRecycle(codec: Codec, config: Config, k: Kernel, a: Profile, b: Profile)
    requires Faithful(codec) && Complete(codec, a) && Complete(codec, b) && Settled(config, k, a)
    ensures Applied(config, k, Diff(codec, a, b), b, Ipv4Dns(a)) == Recycled(config, k, b, Ipv4Dns(a))
  {
    HotLeavesSettled(codec, config, k, a, b);
    KindRefinesRecycle(config, k, Diff(codec, a, b), b, Ipv4Dns(a));
  }

  lemma KindRefinesRecycle(config: Config, k: Kernel, kind: ApplyKind, p: Profile, previous: seq<nat>)
    requires k.link.Some? && Settled(config, Applied(config, k, kind, p, previous), p)
    ensures Applied(config, k, kind, p, previous) == Recycled(config, k, p, previous)
  {
    if !config.ipv6Routing { OthersStay(config, k, kind, p, previous); }
    SettledIsRecycled(config, Applied(config, k, kind, p, previous), k, p, previous);
  }

  // ------------------------------------------------------------ exactly what each action needs

  /** Every service route is one the profile needs or one that is about to be removed. */
  predicate NoStrays(config: Config, k: Kernel, p: Profile, previous: seq<nat>) {
    && (forall r <- k.services :: r in ServiceRoutes(config, Ipv4Dns(p)) || r in previous)
    && (!config.ipv6Routing ==> !k.default6)
  }

  /** What an action needs of the tunnel it starts from to leave the profile's. */
  predicate SettlesFrom(config: Config, k: Kernel, kind: ApplyKind, p: Profile, previous: seq<nat>) {
    match kind
    case NoChange => Settled(config, k, p)
    case DnsReload => k.link == Some(LinkOf(p)) && NoStrays(config, k, p, previous)
    case TunnelRecycle => true
    case _ =>
      && k.link.Some? && k.link.value.addresses == p.interface.addresses && k.link.value.mtu == p.interface.mtu
      && NoStrays(config, k, p, previous)
  }

  lemma ReconcileSettlesIff(config: Config, k: Kernel, p: Profile, previous: seq<nat>)
    ensures Settled(config, Reconciled(config, k, previous, Ipv4Dns(p), CarriesIpv6(p)), p) <==>
            k.link == Some(LinkOf(p)) && NoStrays(config, k, p, previous)
  {
    var desired := ServiceRoutes(config, Ipv4Dns(p));
    var after := Reconciled(config, k, previous, Ipv4Dns(p), CarriesIpv6(p)).services;
    assert after == k.services + desired - Obsolete(previous, desired);
    assert after == desired <==> forall r <- k.services :: r in desired || r in previous by {
      assert desired <= after;
      if after == desired {
        forall r <- k.services ensures r in desired || r in previous {
          assert r !in desired && r !in previous ==> r in after;
        }
      }
      if forall r <- k.services :: r in desired || r in previous { assert after <= desired; }
    }
  }

  lemma SyncedIsWhole(k: Kernel, p: Profile)
    requires k.link.Some?
    ensures Synced(k, p).link == Some(LinkOf(p)) <==>
            k.link.value.addresses == p.interface.addresses && k.link.value.mtu == p.interface.mtu
  {
  }

  /** Whatever the tunnel it starts from, an action leaves the profile's tunnel exactly when that holds. */
  lemma AppliedSettlesIff(config: Config, k: Kernel, kind: ApplyKind, p: Profile, previous: seq<nat>)
    requires k.link.Some?
    ensures Settled(config, Applied(config, k, kind, p, previous), p) <==> SettlesFrom(config, k, kind, p, previous)
  {
    match kind
    case NoChange =>
    case DnsReload => ReconcileSettlesIff(config, k, p, previous);
    case TunnelRecycle => RecycleSettles(config, k, p, previous);
    case _ =>
      SyncedIsWhole(k, p);
      ReconcileSettlesIff(config, Synced(k, p), p, previous);
  }

  /** It holds of the action a difference calls for, from the tunnel of the profile it is a difference to. */
  lemma DifferenceSettles(codec: Codec, config: Config, k: Kernel, a: Profile, b: Profile)
    requires Faithful(codec) && Complete(codec, a) && Complete(codec, b) && Settled(config, k, a)
    ensures SettlesFrom(config, k, Diff(codec, a, b), b, Ipv4Dns(a))
  {
    HotLeavesSettled(codec, config, k, a, b);
    AppliedSettlesIff(config, k, Diff(codec, a, b), b, Ipv4Dns(a));
  }

  /** No obsolete DNS route is left and no capability route is removed. */
  lemma HotApplyRoutes(codec: Codec, config: Config, k: Kernel, a: Profile, b: Profile)
    requires Faithful(codec) && Complete(codec, a) && Complete(codec, b) && Settled(config, k, a)
    ensures var after := Applied(config, k, Diff(codec, a, b), b, Ipv4Dns(a));
            && CapabilityRoutes(config) <= after.services
            && forall r <- after.services :: r in CapabilityRoutes(config) || r in Ipv4Dns(b)
  {
    HotLeavesSettled(codec, config, k, a, b);
  }
}
