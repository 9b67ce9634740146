/** A complete profile's source lines lead the parser back to the profile. */
module WireGuardLines {
  import opened Basics
  import opened Text
  import opened WireGuardProfile
  import opened WireGuardRender
  import opened WireGuardParsed
  import opened WireGuardReading

  // -------------------------------------------------------------------------- interface

  function InInterfaceOf(i: Interface): State { State(Profile(i, []), InInterface, true) }

  lemma HeadingLeads(codec: Codec, st: State, heading: string, lower: string, next: State)
    requires st.Valid() && GoodValue(heading) && heading[0] == '[' && Lower(heading) == lower
    requires forall n: nat :: StepSection(st, lower, n) == Ok(next)
    ensures Leads(codec, st, [heading], next)
  {
    SplitOnceRebuilds(heading, '#');
    TrimOfTrimmed(heading);
    forall n: nat ensures StepLine(codec, st, heading, n) == Ok(next) {
      assert StepSection(st, lower, n) == Ok(next);
    }
    LeadsByOne(codec, st, heading, next);
  }

  lemma ReadsHeading(codec: Codec)
    ensures Leads(codec, START, ["[Interface]"], InInterfaceOf(NO_INTERFACE))
  {
    assert Lower("[Interface]") == "[interface]";
    HeadingLeads(codec, START, "[Interface]", "[interface]", InInterfaceOf(NO_INTERFACE));
  }

  lemma ReadsPrivateKey(codec: Codec, key: string)
    requires GoodKey(key)
    ensures Leads(codec, InInterfaceOf(NO_INTERFACE), Optional("PrivateKey", Some(key)),
                  InInterfaceOf(Interface(Some(key), [], [], None, None)))
  {
    KeyName();
    KeyReads(key);
    InterfaceDirective(codec, InInterfaceOf(NO_INTERFACE), "PrivateKey", key, Interface(Some(key), [], [], None, None));
  }

  lemma ReadsAddress(codec: Codec, key: Option<string>, nets: seq<Net>)
    requires GoodNets(codec, nets)
    ensures Leads(codec, InInterfaceOf(Interface(key, [], [], None, None)),
                  Optional("Address", Listed(NetTexts(codec, nets))),
                  InInterfaceOf(Interface(key, nets, [], None, None)))
  {
    var st := InInterfaceOf(Interface(key, [], [], None, None));
    if nets == [] {
      LeadsNowhere(codec, st);
    } else {
      AddressName();
      NetsRead(codec, nets);
      InterfaceDirective(codec, st, "Address", Join(NetTexts(codec, nets), ", "), Interface(key, nets, [], None, None));
    }
  }

  lemma ReadsDns(codec: Codec, key: Option<string>, nets: seq<Net>, dns: seq<Addr>)
    requires GoodAddrs(codec, dns)
    ensures Leads(codec, InInterfaceOf(Interface(key, nets, [], None, None)),
                  Optional("DNS", Listed(AddrTexts(codec, dns))),
                  InInterfaceOf(Interface(key, nets, dns, None, None)))
  {
    var st := InInterfaceOf(Interface(key, nets, [], None, None));
    if dns == [] {
      LeadsNowhere(codec, st);
    } else {
      DnsName();
      AddrsRead(codec, dns);
      InterfaceDirective(codec, st, "DNS", Join(AddrTexts(codec, dns), ", "), Interface(key, nets, dns, None, None));
    }
  }

  lemma ReadsListenPort(codec: Codec, key: Option<string>, nets: seq<Net>, dns: seq<Addr>, port: Option<nat>)
    requires GoodNumber(port, 1)
    ensures Leads(codec, InInterfaceOf(Interface(key, nets, dns, None, None)), Optional("ListenPort", Number(port)),
                  InInterfaceOf(Interface(key, nets, dns, port, None)))
  {
    var st := InInterfaceOf(Interface(key, nets, dns, None, None));
    if port.None? {
      LeadsNowhere(codec, st);
    } else {
      ListenPortName();
      NumberReads(port.value, 1);
      InterfaceDirective(codec, st, "ListenPort", Decimal(port.value), Interface(key, nets, dns, port, None));
    }
  }

  lemma ReadsMtu(codec: Codec, i: Interface)
    requires GoodNumber(i.mtu, 576)
    ensures Leads(codec, InInterfaceOf(i.(mtu := None)), Optional("MTU", Number(i.mtu)), InInterfaceOf(i))
  {
    if i.mtu.None? {
      LeadsNowhere(codec, InInterfaceOf(i));
    } else {
      MtuName();
      NumberReads(i.mtu.value, 576);
      InterfaceDirective(codec, InInterfaceOf(i.(mtu := None)), "MTU", Decimal(i.mtu.value), i);
    }
  }

  lemma ReadsHead(codec: Codec, i: Interface)
    requires GoodInterface(codec, i) && i.privateKey.Some?
    ensures Leads(codec, START, HeadLines(codec, i),
                  InInterfaceOf(Interface(i.privateKey, i.addresses, [], None, None)))
  {
    var one, two := InInterfaceOf(NO_INTERFACE), InInterfaceOf(Interface(i.privateKey, [], [], None, None));
    ReadsHeading(codec);
    ReadsPrivateKey(codec, i.privateKey.value);
    ReadsAddress(codec, i.privateKey, i.addresses);
    LeadsConcat(codec, START, ["[Interface]"], one, Optional("PrivateKey", i.privateKey), two);
    LeadsConcat(codec, START, ["[Interface]"] + Optional("PrivateKey", i.privateKey), two,
                Optional("Address", Listed(NetTexts(codec, i.addresses))),
                InInterfaceOf(Interface(i.privateKey, i.addresses, [], None, None)));
  }

  lemma ReadsTail(codec: Codec, i: Interface)
    requires GoodInterface(codec, i)
    ensures Leads(codec, InInterfaceOf(i.(listenPort := None, mtu := None)), TailLines(i), InInterfaceOf(i))
  {
    ReadsListenPort(codec, i.privateKey, i.addresses, i.dns, i.listenPort);
    ReadsMtu(codec, i);
    LeadsConcat(codec, InInterfaceOf(i.(listenPort := None, mtu := None)), Optional("ListenPort", Number(i.listenPort)),
                InInterfaceOf(i.(mtu := None)), Optional("MTU", Number(i.mtu)), InInterfaceOf(i));
  }

  lemma ReadsInterface(codec: Codec, i: Interface)
    requires GoodInterface(codec, i) && i.privateKey.Some?
    ensures Leads(codec, START, HeadLines(codec, i) + DnsLines(codec, i) + TailLines(i), InInterfaceOf(i))
  {
    var head := InInterfaceOf(Interface(i.privateKey, i.addresses, [], None, None));
    var dns := InInterfaceOf(i.(listenPort := None, mtu := None));
    ReadsHead(codec, i);
    ReadsDns(codec, i.privateKey, i.addresses, i.dns);
    ReadsTail(codec, i);
    LeadsConcat(codec, START, HeadLines(codec, i), head, DnsLines(codec, i), dns);
    LeadsConcat(codec, START, HeadLines(codec, i) + DnsLines(codec, i), dns, TailLines(i), InInterfaceOf(i));
  }

  // ------------------------------------------------------------------------------ peers

  function InPeerOf(i: Interface, before: seq<Peer>, p: Peer): State {
    State(Profile(i, before + [p]), InPeer(|before|), true)
  }

  function RetaggedPeer(codec: Codec, p: Peer): Peer {
    p.(endpoint := if p.endpoint.None? then None else Some(Retagged(codec, p.endpoint.value)))
  }

  function RetaggedPeers(codec: Codec, peers: seq<Peer>): seq<Peer> {
    seq(|peers|, i requires 0 <= i < |peers| => RetaggedPeer(codec, peers[i]))
  }

  /** The profile with each endpoint's family as it is read back. */
  function RetaggedProfile(codec: Codec, p: Profile): Profile { Profile(p.interface, RetaggedPeers(codec, p.peers)) }

  lemma ReadsPeerHeading(codec: Codec, st: State)
    requires st.Valid() && st.interfaceSeen && |st.profile.peers| < MAX_PEERS
    ensures Leads(codec, st, ["", "[Peer]"], InPeerOf(st.profile.interface, st.profile.peers, NO_PEER))
  {
    var next := InPeerOf(st.profile.interface, st.profile.peers, NO_PEER);
    assert Content("") == "";
    LeadsByOne(codec, st, "", st);
    assert Lower("[Peer]") == "[peer]";
    HeadingLeads(codec, st, "[Peer]", "[peer]", next);
    LeadsConcat(codec, st, [""], st, ["[Peer]"], next);
    assert [""] + ["[Peer]"] == ["", "[Peer]"];
  }

  lemma ReadsInPeer(codec: Codec, i: Interface, ps: seq<Peer>, p: Peer, name: string, value: string, field: Field,
                    after: Peer)
    requires NamesPeer(name, field) && GoodValue(value) && SetPeer(codec, p, field, value) == Ok(after)
    ensures Leads(codec, InPeerOf(i, ps, p), [Directive(name, value)], InPeerOf(i, ps, after))
  {
    PeerDirective(codec, InPeerOf(i, ps, p), name, value, after);
    assert (ps + [p])[|ps| := after] == ps + [after];
  }

  lemma ReadsKeys(codec: Codec, i: Interface, ps: seq<Peer>, p: Peer)
    requires GoodPeer(codec, p) && p.publicKey != ""
    ensures Leads(codec, InPeerOf(i, ps, NO_PEER),
                  [Directive("PublicKey", p.publicKey)] + Optional("PresharedKey", p.presharedKey),
                  InPeerOf(i, ps, Peer(p.publicKey, p.presharedKey, None, [], None)))
  {
    var keyed := Peer(p.publicKey, None, None, [], None);
    PublicKeyName();
    KeyReads(p.publicKey);
    ReadsInPeer(codec, i, ps, NO_PEER, "PublicKey", p.publicKey, PublicKey, keyed);
    if p.presharedKey.None? {
      LeadsNowhere(codec, InPeerOf(i, ps, keyed));
    } else {
      PresharedKeyName();
      KeyReads(p.presharedKey.value);
      ReadsInPeer(codec, i, ps, keyed, "PresharedKey", p.presharedKey.value, PresharedKey,
                  keyed.(presharedKey := p.presharedKey));
    }
    LeadsConcat(codec, InPeerOf(i, ps, NO_PEER), [Directive("PublicKey", p.publicKey)], InPeerOf(i, ps, keyed),
                Optional("PresharedKey", p.presharedKey), InPeerOf(i, ps, keyed.(presharedKey := p.presharedKey)));
  }

  lemma ReadsEndpoint(codec: Codec, i: Interface, ps: seq<Peer>, before: Peer, e: Option<Endpoint>)
    requires Faithful(codec) && before.endpoint.None? && (e.Some? ==> GoodEndpoint(codec, e.value))
    ensures var after := before.(endpoint := if e.None? then None else Some(Retagged(codec, e.value)));
            Leads(codec, InPeerOf(i, ps, before), Optional("Endpoint", EndpointValue(e)), InPeerOf(i, ps, after))
  {
    if e.None? {
      LeadsNowhere(codec, InPeerOf(i, ps, before));
    } else {
      EndpointName();
      EndpointReads(codec, e.value);
      EndpointIsPlain(codec, e.value);
      ReadsInPeer(codec, i, ps, before, "Endpoint", EndpointText(e.value), EndpointField,
                  before.(endpoint := Some(Retagged(codec, e.value))));
    }
  }

  lemma ReadsRanges(codec: Codec, i: Interface, ps: seq<Peer>, before: Peer, nets: seq<Net>, keepalive: Option<nat>)
    requires before.allowedIps == [] && before.keepalive.None? && GoodNets(codec, nets) && nets != [] &&
             GoodNumber(keepalive, 0)
    ensures Leads(codec, InPeerOf(i, ps, before),
                  [Directive("AllowedIPs", Join(NetTexts(codec, nets), ", "))]
                  + Optional("PersistentKeepalive", Number(keepalive)),
                  InPeerOf(i, ps, before.(allowedIps := nets, keepalive := keepalive)))
  {
    var value, ranged := Join(NetTexts(codec, nets), ", "), before.(allowedIps := nets);
    AllowedIpsName();
    NetsRead(codec, nets);
    ReadsInPeer(codec, i, ps, before, "AllowedIPs", value, AllowedIps, ranged);
    if keepalive.None? {
      LeadsNowhere(codec, InPeerOf(i, ps, ranged));
    } else {
      KeepaliveName();
      NumberReads(keepalive.value, 0);
      ReadsInPeer(codec, i, ps, ranged, "PersistentKeepalive", Decimal(keepalive.value), PersistentKeepalive,
                  ranged.(keepalive := keepalive));
    }
    LeadsConcat(codec, InPeerOf(i, ps, before), [Directive("AllowedIPs", value)], InPeerOf(i, ps, ranged),
                Optional("PersistentKeepalive", Number(keepalive)), InPeerOf(i, ps, ranged.(keepalive := keepalive)));
  }

  lemma PeerLinesGroup(codec: Codec, p: Peer)
    ensures PeerLines(codec, p) ==
            ["", "[Peer]"] + ([Directive("PublicKey", p.publicKey)] + Optional("PresharedKey", p.presharedKey))
            + Optional("Endpoint", EndpointValue(p.endpoint))
            + ([Directive("AllowedIPs", Join(NetTexts(codec, p.allowedIps), ", "))] +
               Optional("PersistentKeepalive", Number(p.keepalive)))
  {
    GroupLines("", "[Peer]", Directive("PublicKey", p.publicKey), Optional("PresharedKey", p.presharedKey),
               Optional("Endpoint", EndpointValue(p.endpoint)),
               Directive("AllowedIPs", Join(NetTexts(codec, p.allowedIps), ", ")),
               Optional("PersistentKeepalive", Number(p.keepalive)));
  }

  lemma GroupLines(a: string, b: string, c: string, d: seq<string>, e: seq<string>, f: string, g: seq<string>)
    ensures [a, b, c] + d + e + [f] + g == [a, b] + ([c] + d) + e + ([f] + g)
  {
  }

  lemma ReadsPeer(codec: Codec, st: State, p: Peer)
    requires Faithful(codec) && st.Valid() && st.interfaceSeen && |st.profile.peers| < MAX_PEERS
    requires GoodPeer(codec, p) && p.publicKey != "" && p.allowedIps != []
    ensures Leads(codec, st, PeerLines(codec, p),
                  InPeerOf(st.profile.interface, st.profile.peers, RetaggedPeer(codec, p)))
  {
    var i, ps := st.profile.interface, st.profile.peers;
    var keyed := Peer(p.publicKey, p.presharedKey, None, [], None);
    var placed := keyed.(endpoint := RetaggedPeer(codec, p).endpoint);
    var a, b := ["", "[Peer]"], [Directive("PublicKey", p.publicKey)] + Optional("PresharedKey", p.presharedKey);
    var c := Optional("Endpoint", EndpointValue(p.endpoint));
    var d := [Directive("AllowedIPs", Join(NetTexts(codec, p.allowedIps), ", "))] +
      Optional("PersistentKeepalive", Number(p.keepalive));
    ReadsPeerHeading(codec, st);
    ReadsKeys(codec, i, ps, p);
    ReadsEndpoint(codec, i, ps, keyed, p.endpoint);
    ReadsRanges(codec, i, ps, placed, p.allowedIps, p.keepalive);
    LeadsConcat(codec, st, a, InPeerOf(i, ps, NO_PEER), b, InPeerOf(i, ps, keyed));
    LeadsConcat(codec, st, a + b, InPeerOf(i, ps, keyed), c, InPeerOf(i, ps, placed));
    LeadsConcat(codec, st, a + b + c, InPeerOf(i, ps, placed), d, InPeerOf(i, ps, RetaggedPeer(codec, p)));
    PeerLinesGroup(codec, p);
  }

  // -------------------------------------------------------------------------- the source

  /** Where the parser is after the interface and the given peers. */
  function AfterPeers(codec: Codec, i: Interface, peers: seq<Peer>): State {
    if peers == [] then InInterfaceOf(i) else State(Profile(i, RetaggedPeers(codec, peers)), InPeer(|peers| - 1), true)
  }

  predicate CompletePeers(codec: Codec, peers: seq<Peer>) {
    GoodPeers(codec, peers) && forall i | 0 <= i < |peers| :: peers[i].publicKey != "" && peers[i].allowedIps != []
  }

  lemma {:induction false} ReadsPeers(codec: Codec, i: Interface, peers: seq<Peer>)
    requires Faithful(codec) && CompletePeers(codec, peers)
    ensures Leads(codec, InInterfaceOf(i), PeersLines(codec, peers), AfterPeers(codec, i, peers))
  {
    if peers == [] {
      LeadsNowhere(codec, InInterfaceOf(i));
    } else {
      var before, last := peers[..|peers| - 1], peers[|peers| - 1];
      var st := AfterPeers(codec, i, before);
      ReadsPeers(codec, i, before);
      ReadsPeer(codec, st, last);
      assert RetaggedPeers(codec, peers) == RetaggedPeers(codec, before) + [RetaggedPeer(codec, last)];
      LeadsConcat(codec, InInterfaceOf(i), PeersLines(codec, before), st, PeerLines(codec, last),
                  AfterPeers(codec, i, peers));
    }
  }

  lemma ReadsSource(codec: Codec, p: Profile)
    requires Faithful(codec) && GoodInterface(codec, p.interface) && p.interface.privateKey.Some? &&
             CompletePeers(codec, p.peers)
    ensures Leads(codec, START, SourceLines(codec, p), AfterPeers(codec, p.interface, p.peers))
  {
    ReadsInterface(codec, p.interface);
    ReadsPeers(codec, p.interface, p.peers);
    LeadsConcat(codec, START, HeadLines(codec, p.interface) + DnsLines(codec, p.interface) + TailLines(p.interface),
                InInterfaceOf(p.interface), PeersLines(codec, p.peers), AfterPeers(codec, p.interface, p.peers));
  }
}
