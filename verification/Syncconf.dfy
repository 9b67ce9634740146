/** The file handed to `wg syncconf`, and that it carries exactly what the running interface takes over. */
module Syncconf {
  import opened Basics
  import opened Text
  import opened WireGuardProfile
  import opened WireGuardRender
  import opened WireGuardParsed
  import opened WireGuardReading
  import opened WireGuardLines
  import opened WireGuardSearch
  import opened WireGuardRoundTrip
  import opened Tunnel

  function SyncHead(i: Interface): seq<string> {
    ["[Interface]"] + Optional("PrivateKey", i.privateKey) + Optional("ListenPort", Number(i.listenPort))
  }

  /** No addresses, DNS, MTU or table: only what `wg` itself understands. */
  function SyncLines(codec: Codec, p: Profile): seq<string> { SyncHead(p.interface) + PeersLines(codec, p.peers) }

  method RenderSyncconf(codec: Codec, p: Profile) returns (output: string)
    ensures output == Unlines(SyncLines(codec, p))
  {
    var i := p.interface;
    ghost var key := Optional("PrivateKey", i.privateKey);
    output := AppendLine("", [], "[Interface]");
    assert [] + ["[Interface]"] == ["[Interface]"];
    output := AppendOptional(output, ["[Interface]"], "PrivateKey", i.privateKey);
    output := AppendOptional(output, ["[Interface]"] + key, "ListenPort", Number(i.listenPort));
    output := AppendPeers(codec, output, SyncHead(i), p.peers);
  }

  /** The interface the file describes. */
  function SyncInterface(i: Interface): Interface { Interface(i.privateKey, [], [], i.listenPort, None) }

  lemma ReadsSyncHead(codec: Codec, i: Interface)
    requires GoodInterface(codec, i) && i.privateKey.Some?
    ensures Leads(codec, START, SyncHead(i), InInterfaceOf(SyncInterface(i)))
  {
    var one, two := InInterfaceOf(NO_INTERFACE), InInterfaceOf(Interface(i.privateKey, [], [], None, None));
    ReadsHeading(codec);
    ReadsPrivateKey(codec, i.privateKey.value);
    ReadsListenPort(codec, i.privateKey, [], [], i.listenPort);
    LeadsConcat(codec, START, ["[Interface]"], one, Optional("PrivateKey", i.privateKey), two);
    LeadsConcat(codec, START, ["[Interface]"] + Optional("PrivateKey", i.privateKey), two,
                Optional("ListenPort", Number(i.listenPort)), InInterfaceOf(SyncInterface(i)));
  }

  lemma ReadsSyncLines(codec: Codec, p: Profile)
    requires Faithful(codec) && Complete(codec, p)
    ensures Leads(codec, START, SyncLines(codec, p), AfterPeers(codec, SyncInterface(p.interface), p.peers))
  {
    ReadsSyncHead(codec, p.interface);
    ReadsPeers(codec, SyncInterface(p.interface), p.peers);
    LeadsConcat(codec, START, SyncHead(p.interface), InInterfaceOf(SyncInterface(p.interface)),
                PeersLines(codec, p.peers), AfterPeers(codec, SyncInterface(p.interface), p.peers));
  }

  lemma SyncLinesAreFree(codec: Codec, p: Profile)
    requires Complete(codec, p)
    ensures FreeLines(SyncLines(codec, p))
  {
    var i := p.interface;
    TailIsFree(codec, i);
    PeersAreFree(codec, p.peers);
    OptionalIsFree("PrivateKey", i.privateKey);
    if i.listenPort.Some? { DecimalIsClean(i.listenPort.value); }
    OptionalIsFree("ListenPort", Number(i.listenPort));
    FreeConcat(["[Interface]"], Optional("PrivateKey", i.privateKey));
    FreeConcat(["[Interface]"] + Optional("PrivateKey", i.privateKey), Optional("ListenPort", Number(i.listenPort)));
    FreeConcat(SyncHead(i), PeersLines(codec, p.peers));
  }

  lemma RetaggedWires(codec: Codec, peers: seq<Peer>)
    ensures WirePeers(RetaggedPeers(codec, peers)) == WirePeers(peers)
  {
    forall i | 0 <= i < |peers| ensures WirePeers(RetaggedPeers(codec, peers))[i] == WirePeers(peers)[i] {
      RetaggedWire(codec, peers[i]);
    }
  }

  /** What the file's text reads as. */
  function ReadBack(codec: Codec, text: string): Result<Profile, ProfileError> {
    var st := Fold(codec, START, Split(text, '\n'), 1);
    if st.Err? then Err(st.error) else Ok(st.value.profile)
  }

  lemma ReadBackByLines(codec: Codec, text: string, lines: seq<string>, end: State)
    requires Split(text, '\n') == lines && Leads(codec, START, lines, end)
    ensures ReadBack(codec, text) == Ok(end.profile)
  {
    assert Fold(codec, START, lines, 1) == Ok(end);
  }

  /**
   The text reads back as exactly the key, port and peers of the profile, and as nothing else; so
   loading what it reads as is what a sync takes over.
   */
  lemma SyncconfReadsBack(codec: Codec, p: Profile, k: Kernel)
    requires Faithful(codec) && Complete(codec, p) && k.link.Some?
    ensures var read := ReadBack(codec, Unlines(SyncLines(codec, p)));
            && read.Ok? && read.value.interface == SyncInterface(p.interface)
            && WirePeers(read.value.peers) == WirePeers(p.peers)
            && Synced(k, read.value) == Synced(k, p)
  {
    var lines, end := SyncLines(codec, p), AfterPeers(codec, SyncInterface(p.interface), p.peers);
    SyncLinesAreFree(codec, p);
    SplitUnlines(lines);
    ReadsSyncLines(codec, p);
    LeadsPastEmptyLine(codec, lines, end);
    ReadBackByLines(codec, Unlines(lines), lines + [""], end);
    RetaggedWires(codec, p.peers);
  }
}
