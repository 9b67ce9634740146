/** A rendered source never exceeds what the parser accepts. */
module WireGuardSize {
  import opened Basics
  import opened Text
  import opened WireGuardProfile
  import opened WireGuardRender
  import opened WireGuardParsed
  import opened WireGuardReading
  import opened WireGuardLines

  function Weight(lines: seq<string>): nat { ByteLen(Unlines(lines)) }

  lemma WeightConcat(a: seq<string>, b: seq<string>)
    ensures Weight(a + b) == Weight(a) + Weight(b)
  {
    UnlinesConcat(a, b);
    ByteLenConcat(Unlines(a), Unlines(b));
  }

  lemma WeightOne(line: string)
    ensures Weight([line]) == ByteLen(line) + 1
  {
    UnlinesOne(line);
    ByteLenConcat(line, "\n");
    AsciiByteLen("\n");
  }

  lemma OptionalWeight(name: string, value: Option<string>, limit: nat)
    requires Letters(name) && (value.Some? ==> ByteLen(value.value) <= limit)
    ensures Weight(Optional(name, value)) <= |name| + 4 + limit
  {
    if value.Some? {
      WeightOne(Directive(name, value.value));
      ByteLenConcat(name, " = ");
      ByteLenConcat(name + " = ", value.value);
      assert forall i | 0 <= i < |name| :: name[i] in name;
      AsciiByteLen(name);
      AsciiByteLen(" = ");
    }
  }

  lemma CleanBytes(s: string)
    requires CleanText(s)
    ensures ByteLen(s) == |s|
  {
    assert forall i | 0 <= i < |s| :: s[i] in s;
    AsciiByteLen(s);
  }

  lemma {:induction false} JoinWeight(texts: seq<string>)
    requires forall i | 0 <= i < |texts| :: CleanText(texts[i]) && |texts[i]| <= 43
    ensures ByteLen(Join(texts, ", ")) <= 45 * |texts|
  {
    if texts != [] {
      CleanBytes(texts[0]);
      if |texts| > 1 {
        JoinWeight(texts[1..]);
        ByteLenConcat(texts[0], ", ");
        ByteLenConcat(texts[0] + ", ", Join(texts[1..], ", "));
        AsciiByteLen(", ");
      }
    }
  }

  lemma NetsWeight(codec: Codec, nets: seq<Net>)
    requires GoodNets(codec, nets)
    ensures ByteLen(Join(NetTexts(codec, nets), ", ")) <= 5760
  {
    JoinWeight(NetTexts(codec, nets));
  }

  lemma AddrsWeight(codec: Codec, addrs: seq<Addr>)
    requires GoodAddrs(codec, addrs)
    ensures ByteLen(Join(AddrTexts(codec, addrs), ", ")) <= 5760
  {
    JoinWeight(AddrTexts(codec, addrs));
  }

  function Pow10(k: nat): nat { if k == 0 then 1 else 10 * Pow10(k - 1) }

  lemma {:induction false} DecimalIsShort(n: nat, digits: nat)
    requires 0 < digits && n < Pow10(digits)
    ensures |Decimal(n)| <= digits
  {
    if n >= 10 {
      assert digits > 1 by { assert Pow10(1) == 10 * Pow10(0); }
      DecimalIsShort(n / 10, digits - 1);
    }
  }

  lemma NumberWeight(n: nat)
    requires n <= U16_MAX
    ensures ByteLen(Decimal(n)) <= 5
  {
    DecimalIsClean(n);
    CleanBytes(Decimal(n));
    assert Pow10(2) == 100 && Pow10(3) == 1000;
    assert Pow10(5) == 100000 by { assert Pow10(4) == 10000; }
    DecimalIsShort(n, 5);
  }

  lemma HostBytes(codec: Codec, e: Endpoint)
    requires GoodEndpoint(codec, e)
    ensures ByteLen(e.host) == |e.host| && (e.family == FamilyIpv6 ==> |e.host| <= 39) && |e.host| <= 253
  {
    assert forall i | 0 <= i < |e.host| :: e.host[i] in e.host;
    AsciiByteLen(e.host);
  }

  lemma Bracketed(host: string)
    ensures ByteLen("[" + host + "]") == ByteLen(host) + 2
  {
    ByteLenConcat("[", host);
    ByteLenConcat("[" + host, "]");
    AsciiByteLen("[");
    AsciiByteLen("]");
  }

  lemma EndpointWeight(codec: Codec, e: Endpoint)
    requires GoodEndpoint(codec, e)
    ensures ByteLen(EndpointText(e)) <= 261
  {
    var host := if e.family == FamilyIpv6 then "[" + e.host + "]" else e.host;
    HostBytes(codec, e);
    Bracketed(e.host);
    NumberWeight(e.port);
    ByteLenConcat(host, ":");
    ByteLenConcat(host + ":", Decimal(e.port));
    AsciiByteLen(":");
  }

  lemma FixedLines()
    ensures Weight(["[Interface]"]) == 12 && Weight([TABLE]) == 12 && Weight(["", "[Peer]"]) == 8
  {
    WeightOne("[Interface]");
    WeightOne(TABLE);
    WeightOne("");
    WeightOne("[Peer]");
    AsciiByteLen("[Interface]");
    AsciiByteLen(TABLE);
    AsciiByteLen("[Peer]");
    WeightConcat([""], ["[Peer]"]);
    assert [""] + ["[Peer]"] == ["", "[Peer]"];
  }

  lemma HeadWeight(codec: Codec, i: Interface)
    requires GoodInterface(codec, i)
    ensures Weight(HeadLines(codec, i)) <= 5930
  {
    var key, address := Optional("PrivateKey", i.privateKey), Optional("Address", Listed(NetTexts(codec, i.addresses)));
    FixedLines();
    NetsWeight(codec, i.addresses);
    OptionalWeight("PrivateKey", i.privateKey, 128);
    OptionalWeight("Address", Listed(NetTexts(codec, i.addresses)), 5760);
    WeightConcat(["[Interface]"], key);
    WeightConcat(["[Interface]"] + key, address);
  }

  lemma TailWeight(codec: Codec, i: Interface)
    requires GoodInterface(codec, i)
    ensures Weight(TailLines(i)) <= 40
  {
    if i.listenPort.Some? { NumberWeight(i.listenPort.value); }
    if i.mtu.Some? { NumberWeight(i.mtu.value); }
    OptionalWeight("ListenPort", Number(i.listenPort), 5);
    OptionalWeight("MTU", Number(i.mtu), 5);
    WeightConcat(Optional("ListenPort", Number(i.listenPort)), Optional("MTU", Number(i.mtu)));
  }

  lemma KeysWeight(codec: Codec, p: Peer)
    requires GoodPeer(codec, p) && p.publicKey != ""
    ensures Weight([Directive("PublicKey", p.publicKey)] + Optional("PresharedKey", p.presharedKey)) <= 285
  {
    OptionalWeight("PublicKey", Some(p.publicKey), 128);
    OptionalWeight("PresharedKey", p.presharedKey, 128);
    WeightConcat(Optional("PublicKey", Some(p.publicKey)), Optional("PresharedKey", p.presharedKey));
  }

  lemma RangesWeight(codec: Codec, p: Peer)
    requires GoodPeer(codec, p)
    ensures Weight([Directive("AllowedIPs", Join(NetTexts(codec, p.allowedIps), ", "))]
                   + Optional("PersistentKeepalive", Number(p.keepalive))) <= 5802
  {
    NetsWeight(codec, p.allowedIps);
    if p.keepalive.Some? { NumberWeight(p.keepalive.value); }
    OptionalWeight("AllowedIPs", Some(Join(NetTexts(codec, p.allowedIps), ", ")), 5760);
    OptionalWeight("PersistentKeepalive", Number(p.keepalive), 5);
    WeightConcat(Optional("AllowedIPs", Some(Join(NetTexts(codec, p.allowedIps), ", "))),
                 Optional("PersistentKeepalive", Number(p.keepalive)));
  }

  lemma PeerWeight(codec: Codec, p: Peer)
    requires GoodPeer(codec, p) && p.publicKey != ""
    ensures Weight(PeerLines(codec, p)) <= 6400
  {
    var keys := [Directive("PublicKey", p.publicKey)] + Optional("PresharedKey", p.presharedKey);
    var endpoint := Optional("Endpoint", EndpointValue(p.endpoint));
    var ranges := [Directive("AllowedIPs", Join(NetTexts(codec, p.allowedIps), ", "))]
                  + Optional("PersistentKeepalive", Number(p.keepalive));
    FixedLines();
    KeysWeight(codec, p);
    if p.endpoint.Some? { EndpointWeight(codec, p.endpoint.value); }
    OptionalWeight("Endpoint", EndpointValue(p.endpoint), 261);
    RangesWeight(codec, p);
    PeerLinesGroup(codec, p);
    WeightConcat(["", "[Peer]"], keys);
    WeightConcat(["", "[Peer]"] + keys, endpoint);
    WeightConcat(["", "[Peer]"] + keys + endpoint, ranges);
  }

  lemma {:induction false} PeersWeight(codec: Codec, peers: seq<Peer>)
    requires CompletePeers(codec, peers)
    ensures Weight(PeersLines(codec, peers)) <= 6400 * |peers|
  {
    if peers != [] {
      var before, last := peers[..|peers| - 1], peers[|peers| - 1];
      PeersWeight(codec, before);
      PeerWeight(codec, last);
      WeightConcat(PeersLines(codec, before), PeerLines(codec, last));
    }
  }

  lemma RenderWeight(codec: Codec, p: Profile)
    requires GoodInterface(codec, p.interface) && CompletePeers(codec, p.peers)
    ensures ByteLen(Render(codec, p)) <= 5930 + 12 + 40 + 6400 * MAX_PEERS
  {
    var head, tail, peers := HeadLines(codec, p.interface), TailLines(p.interface), PeersLines(codec, p.peers);
    FixedLines();
    HeadWeight(codec, p.interface);
    TailWeight(codec, p.interface);
    PeersWeight(codec, p.peers);
    WeightConcat(head, [TABLE]);
    WeightConcat(head + [TABLE], tail);
    WeightConcat(head + [TABLE] + tail, peers);
  }

  lemma InsertedWeight(text: string, insertion: string)
    ensures ByteLen(Inserted(text, insertion)) <= ByteLen(text) + ByteLen(insertion)
  {
    var at := Find(text, NEEDLE);
    if at.Some? {
      var before, after := text[..at.value], text[at.value..];
      assert text == before + after;
      ByteLenConcat(before, after);
      ByteLenConcat(before, insertion);
      ByteLenConcat(before + insertion, after);
    }
  }

  lemma RemovedWeight(text: string)
    ensures ByteLen(Removed(text)) <= ByteLen(text)
  {
    var at := Find(text, NEEDLE);
    if at.Some? {
      var before, middle, after := text[..at.value], text[at.value..at.value + |NEEDLE|], text[at.value + |NEEDLE|..];
      assert text == before + middle + after;
      ByteLenConcat(before, middle);
      ByteLenConcat(before + middle, after);
      ByteLenConcat(before, after);
    }
  }

  /** At most 256 KiB, whatever the profile. */
  lemma SourceFits(codec: Codec, p: Profile)
    requires GoodInterface(codec, p.interface) && CompletePeers(codec, p.peers)
    ensures ByteLen(RenderSource(codec, p)) <= MAX_PROFILE_BYTES
  {
    var text := Render(codec, p);
    var line := Directive("DNS", Join(AddrTexts(codec, p.interface.dns), ", "));
    RenderWeight(codec, p);
    AddrsWeight(codec, p.interface.dns);
    OptionalWeight("DNS", Some(Join(AddrTexts(codec, p.interface.dns), ", ")), 5760);
    UnlinesOne(line);
    InsertedWeight(text, line + "\n");
    RemovedWeight(text);
    RemovedWeight(Inserted(text, line + "\n"));
  }
}
