/** Rendering profiles as in src/wireguard.rs: by appending text, against the lines the text stands for. */
module WireGuardRender {
  import opened Basics
  import opened Text
  import opened WireGuardProfile

  // ------------------------------------------------------------------------------ lines

  function Directive(name: string, value: string): string { name + " = " + value }

  function Optional(name: string, value: Option<string>): seq<string> {
    if value.None? then [] else [Directive(name, value.value)]
  }

  function Number(n: Option<nat>): Option<string> { if n.None? then None else Some(Decimal(n.value)) }

  function NetTexts(codec: Codec, nets: seq<Net>): seq<string> {
    seq(|nets|, i requires 0 <= i < |nets| => codec.printNet(nets[i]))
  }

  function AddrTexts(codec: Codec, addrs: seq<Addr>): seq<string> {
    seq(|addrs|, i requires 0 <= i < |addrs| => codec.printAddr(addrs[i]))
  }

  function Listed(texts: seq<string>): Option<string> { if texts == [] then None else Some(Join(texts, ", ")) }

  function EndpointText(e: Endpoint): string {
    (if e.family == FamilyIpv6 then "[" + e.host + "]" else e.host) + ":" + Decimal(e.port)
  }

  function EndpointValue(e: Option<Endpoint>): Option<string> { if e.None? then None else Some(EndpointText(e.value)) }

  function HeadLines(codec: Codec, i: Interface): seq<string> {
    ["[Interface]"] + Optional("PrivateKey", i.privateKey) + Optional("Address", Listed(NetTexts(codec, i.addresses)))
  }

  function TailLines(i: Interface): seq<string> {
    Optional("ListenPort", Number(i.listenPort)) + Optional("MTU", Number(i.mtu))
  }

  function DnsLines(codec: Codec, i: Interface): seq<string> { Optional("DNS", Listed(AddrTexts(codec, i.dns))) }

  function PeerLines(codec: Codec, p: Peer): seq<string> {
    ["", "[Peer]", Directive("PublicKey", p.publicKey)]
    + Optional("PresharedKey", p.presharedKey)
    + Optional("Endpoint", EndpointValue(p.endpoint))
    + [Directive("AllowedIPs", Join(NetTexts(codec, p.allowedIps), ", "))]
    + Optional("PersistentKeepalive", Number(p.keepalive))
  }

  function PeersLines(codec: Codec, peers: seq<Peer>): seq<string> {
    if peers == [] then [] else PeersLines(codec, peers[..|peers| - 1]) + PeerLines(codec, peers[|peers| - 1])
  }

  const TABLE := "Table = off"

  /** The lines handed to wg-quick. */
  function RenderLines(codec: Codec, p: Profile): seq<string> {
    HeadLines(codec, p.interface) + [TABLE] + TailLines(p.interface) + PeersLines(codec, p.peers)
  }

  /** The lines of the stored source. */
  function SourceLines(codec: Codec, p: Profile): seq<string> {
    HeadLines(codec, p.interface) + DnsLines(codec, p.interface) + TailLines(p.interface) + PeersLines(codec, p.peers)
  }

  function Unlines(lines: seq<string>): string {
    if lines == [] then "" else Unlines(lines[..|lines| - 1]) + lines[|lines| - 1] + "\n"
  }

  lemma {:induction false} UnlinesConcat(a: seq<string>, b: seq<string>)
    ensures Unlines(a + b) == Unlines(a) + Unlines(b)
  {
    if b == [] {
      assert a + b == a;
    } else {
      var rest, last := b[..|b| - 1], b[|b| - 1];
      UnlinesConcat(a, rest);
      assert (a + b)[..|a + b| - 1] == a + rest;
      assert Unlines(a + b) == Unlines(a + rest) + last + "\n";
      Regroup(Unlines(a), Unlines(rest), last, "\n");
    }
  }

  lemma Regroup(a: string, b: string, c: string, d: string)
    ensures a + b + c + d == a + (b + c + d)
  {
  }

  lemma UnlinesOne(line: string)
    ensures Unlines([line]) == line + "\n"
  {
    assert [line][..0] == [];
  }

  function Render(codec: Codec, p: Profile): string { Unlines(RenderLines(codec, p)) }

  // ---------------------------------------------------------------------- imperative form

  method AppendLine(output: string, ghost lines: seq<string>, line: string) returns (r: string)
    requires output == Unlines(lines)
    ensures r == Unlines(lines + [line])
  {
    r := output + line;
    r := r + "\n";
    assert (lines + [line])[..|lines|] == lines;
  }

  method AppendOptional(output: string, ghost lines: seq<string>, name: string, value: Option<string>)
    returns (r: string)
    requires output == Unlines(lines)
    ensures r == Unlines(lines + Optional(name, value))
  {
    r := output;
    if value.Some? {
      r := AppendLine(output, lines, name + " = " + value.value);
    } else {
      assert lines + Optional(name, value) == lines;
    }
  }

  method AppendPeer(codec: Codec, output: string, ghost lines: seq<string>, p: Peer) returns (r: string)
    requires output == Unlines(lines)
    ensures r == Unlines(lines + PeerLines(codec, p))
  {
    var ips := Directive("AllowedIPs", Join(NetTexts(codec, p.allowedIps), ", "));
    r := AppendLine(output, lines, "");
    r := AppendLine(r, lines + [""], "[Peer]");
    r := AppendLine(r, lines + [""] + ["[Peer]"], Directive("PublicKey", p.publicKey));
    ghost var one := lines + [""] + ["[Peer]"] + [Directive("PublicKey", p.publicKey)];
    r := AppendOptional(r, one, "PresharedKey", p.presharedKey);
    ghost var two := one + Optional("PresharedKey", p.presharedKey);
    r := AppendOptional(r, two, "Endpoint", EndpointValue(p.endpoint));
    ghost var three := two + Optional("Endpoint", EndpointValue(p.endpoint));
    r := AppendLine(r, three, ips);
    r := AppendOptional(r, three + [ips], "PersistentKeepalive", Number(p.keepalive));
    PeerLinesFlat(lines, Directive("PublicKey", p.publicKey), Optional("PresharedKey", p.presharedKey),
                  Optional("Endpoint", EndpointValue(p.endpoint)), ips,
                  Optional("PersistentKeepalive", Number(p.keepalive)));
  }

  lemma PeerLinesFlat(lines: seq<string>, key: string, psk: seq<string>, endpoint: seq<string>, ips: string,
                      keepalive: seq<string>)
    ensures lines + [""] + ["[Peer]"] + [key] + psk + endpoint + [ips] + keepalive
            == lines + (["", "[Peer]", key] + psk + endpoint + [ips] + keepalive)
  {
  }

  method RenderProfile(codec: Codec, p: Profile) returns (output: string)
    ensures output == Render(codec, p)
  {
    var i := p.interface;
    ghost var a := Optional("PrivateKey", i.privateKey);
    ghost var b := Optional("Address", Listed(NetTexts(codec, i.addresses)));
    ghost var c, d := Optional("ListenPort", Number(i.listenPort)), Optional("MTU", Number(i.mtu));
    output := AppendLine("", [], "[Interface]");
    output := AppendOptional(output, [] + ["[Interface]"], "PrivateKey", i.privateKey);
    output := AppendOptional(output, [] + ["[Interface]"] + a, "Address", Listed(NetTexts(codec, i.addresses)));
    output := AppendLine(output, [] + ["[Interface]"] + a + b, "Table = off");
    output := AppendOptional(output, [] + ["[Interface]"] + a + b + [TABLE], "ListenPort", Number(i.listenPort));
    output := AppendOptional(output, [] + ["[Interface]"] + a + b + [TABLE] + c, "MTU", Number(i.mtu));
    InterfaceLinesFlat(a, b, c, d);
    output := AppendPeers(codec, output, HeadLines(codec, i) + [TABLE] + TailLines(i), p.peers);
  }

  lemma InterfaceLinesFlat(a: seq<string>, b: seq<string>, c: seq<string>, d: seq<string>)
    ensures [] + ["[Interface]"] + a + b + [TABLE] + c + d == ["[Interface]"] + a + b + [TABLE] + (c + d)
  {
  }

  method AppendPeers(codec: Codec, output: string, ghost lines: seq<string>, peers: seq<Peer>) returns (r: string)
    requires output == Unlines(lines)
    ensures r == Unlines(lines + PeersLines(codec, peers))
  {
    r := output;
    assert lines + PeersLines(codec, peers[..0]) == lines;
    for n := 0 to |peers|
      invariant r == Unlines(lines + PeersLines(codec, peers[..n]))
    {
      r := AppendPeer(codec, r, lines + PeersLines(codec, peers[..n]), peers[n]);
      PeersNext(codec, lines, peers, n);
    }
    assert peers[..|peers|] == peers;
  }

  lemma PeersNext(codec: Codec, lines: seq<string>, peers: seq<Peer>, n: nat)
    requires n < |peers|
    ensures lines + PeersLines(codec, peers[..n]) + PeerLines(codec, peers[n]) ==
            lines + PeersLines(codec, peers[..n + 1])
  {
    var before, own := PeersLines(codec, peers[..n]), PeerLines(codec, peers[n]);
    assert peers[..n + 1][..n] == peers[..n];
    assert PeersLines(codec, peers[..n + 1]) == before + own;
    Associative(lines, before, own);
  }

  lemma Associative(a: seq<string>, b: seq<string>, c: seq<string>)
    ensures a + b + c == a + (b + c)
  {
  }

  // ------------------------------------------------------------------------ source text

  const NEEDLE := "Table = off\n"

  /** Where the needle first occurs. */
  function Find(text: string, needle: string): (at: Option<nat>)
    ensures at.Some? ==> at.value + |needle| <= |text|
  {
    if needle <= text then Some(0)
    else if text == [] then None
    else
      var rest := Find(text[1..], needle);
      if rest.None? then None else Some(rest.value + 1)
  }

  function Inserted(text: string, insertion: string): string {
    var at := Find(text, NEEDLE);
    if at.None? then text else text[..at.value] + insertion + text[at.value..]
  }

  function Removed(text: string): string {
    var at := Find(text, NEEDLE);
    if at.None? then text else text[..at.value] + text[at.value + |NEEDLE|..]
  }

  /** The text kept as the profile's source: the DNS line goes in where the first `Table = off` line is found. */
  function RenderSource(codec: Codec, p: Profile): string {
    var text := Render(codec, p);
    Removed(if p.interface.dns == [] then text
            else Inserted(text, Directive("DNS", Join(AddrTexts(codec, p.interface.dns), ", ")) + "\n"))
  }
}
