/** Parsing what was rendered: exactly when a profile survives the trip through its own source text. */
module WireGuardRoundTrip {
  import opened Basics
  import opened Text
  import opened WireGuardProfile
  import opened WireGuardRender
  import opened WireGuardParsed
  import opened WireGuardReading
  import opened WireGuardLines
  import opened WireGuardSearch
  import opened WireGuardSource
  import opened WireGuardSize

  /** The search for the table line cannot be led astray by the private key. */
  predicate TableIsFound(p: Profile) {
    p.interface.privateKey.Some? && EndsWith(p.interface.privateKey.value, TABLE) ==>
      p.interface.addresses == [] && p.interface.dns == []
  }

  /** The same profile, but for the families of endpoints given by name. */
  predicate SameButFamilies(a: Profile, b: Profile) {
    && a.interface == b.interface && |a.peers| == |b.peers|
    && forall i | 0 <= i < |a.peers| :: SamePeerButFamily(a.peers[i], b.peers[i])
  }

  predicate SamePeerButFamily(a: Peer, b: Peer) {
    && a.(endpoint := None) == b.(endpoint := None)
    && (a.endpoint.Some? <==> b.endpoint.Some?)
    && (a.endpoint.Some? ==>
          a.endpoint.value.host == b.endpoint.value.host && a.endpoint.value.port == b.endpoint.value.port)
  }

  // ------------------------------------------------------------------ the source parses

  lemma {:induction false} RetaggingKeepsRanges(codec: Codec, peers: seq<Peer>)
    ensures FullTunnelPeers(RetaggedPeers(codec, peers)) == FullTunnelPeers(peers)
  {
    if peers != [] {
      var before := peers[..|peers| - 1];
      RetaggingKeepsRanges(codec, before);
      assert RetaggedPeers(codec, peers)[..|peers| - 1] == RetaggedPeers(codec, before);
    }
  }

  lemma {:induction false} NoneIncomplete(peers: seq<Peer>, from: nat)
    requires from <= |peers| && forall i | 0 <= i < |peers| :: peers[i].publicKey != "" && peers[i].allowedIps != []
    ensures IncompletePeer(peers, from).None?
    decreases |peers| - from
  {
    if from < |peers| { NoneIncomplete(peers, from + 1); }
  }

  lemma SourceLinesAreFree(codec: Codec, p: Profile)
    requires GoodInterface(codec, p.interface) && CompletePeers(codec, p.peers)
    ensures FreeLines(SourceLines(codec, p))
  {
    HeadIsFree(codec, p.interface);
    TailIsFree(codec, p.interface);
    PeersAreFree(codec, p.peers);
    FreeConcat(HeadLines(codec, p.interface), DnsLines(codec, p.interface));
    FreeConcat(HeadLines(codec, p.interface) + DnsLines(codec, p.interface), TailLines(p.interface));
    FreeConcat(HeadLines(codec, p.interface) + DnsLines(codec, p.interface) + TailLines(p.interface),
               PeersLines(codec, p.peers));
  }

  lemma EmptyLineIsSkipped(codec: Codec, st: State)
    requires st.Valid()
    ensures Leads(codec, st, [""], st)
  {
    assert Content("") == "";
    LeadsByOne(codec, st, "", st);
  }

  lemma ParseByLines(codec: Codec, text: string, lines: seq<string>, end: State)
    requires ByteLen(text) <= MAX_PROFILE_BYTES && Split(text, '\n') == lines && Leads(codec, START, lines, end)
    requires Incomplete(end).None?
    ensures Parse(codec, text) == Ok(end.profile)
  {
    assert Fold(codec, START, lines, 1) == Ok(end);
  }

  lemma CompleteAtEnd(codec: Codec, p: Profile)
    requires Complete(codec, p)
    ensures Incomplete(AfterPeers(codec, p.interface, p.peers)).None?
  {
    RetaggingKeepsRanges(codec, p.peers);
    NoneIncomplete(RetaggedPeers(codec, p.peers), 0);
  }

  lemma LeadsPastEmptyLine(codec: Codec, lines: seq<string>, end: State)
    requires Leads(codec, START, lines, end) && end.Valid()
    ensures Leads(codec, START, lines + [""], end)
  {
    EmptyLineIsSkipped(codec, end);
    LeadsConcat(codec, START, lines, end, [""], end);
  }

  /** The lines of a complete profile parse to it, with families as read back. */
  lemma SourceParses(codec: Codec, p: Profile)
    requires Faithful(codec) && Complete(codec, p) && ByteLen(Unlines(SourceLines(codec, p))) <= MAX_PROFILE_BYTES
    ensures Parse(codec, Unlines(SourceLines(codec, p))) == Ok(RetaggedProfile(codec, p))
  {
    var lines, end := SourceLines(codec, p), AfterPeers(codec, p.interface, p.peers);
    SourceLinesAreFree(codec, p);
    SplitUnlines(lines);
    ReadsSource(codec, p);
    LeadsPastEmptyLine(codec, lines, end);
    CompleteAtEnd(codec, p);
    ParseByLines(codec, Unlines(lines), lines + [""], end);
  }

  // -------------------------------------------------------------- a table line is fatal

  lemma TableLineFails(codec: Codec, st: State, line: nat)
    requires st.Valid()
    ensures StepLine(codec, st, TABLE, line).Err?
  {
    assert Lower("Table") == "table";
    assert TABLE == Directive("Table", "off");
    if st.section.Outside? {
      DirectiveIsContent("Table", "off");
    } else {
      DirectiveSteps(codec, st, "Table", "off", line);
    }
  }

  lemma TableFoldFails(codec: Codec, before: seq<string>, after: seq<string>)
    ensures Fold(codec, START, before + ([TABLE] + after), 1).Err?
  {
    FoldConcat(codec, START, before, [TABLE] + after, 1);
    var st := Fold(codec, START, before, 1);
    if st.Ok? { FoldFailsFirst(codec, st.value, TABLE, after, 1 + |before|); }
  }

  lemma FoldFailsFirst(codec: Codec, st: State, line: string, after: seq<string>, n: nat)
    requires st.Valid() && line == TABLE
    ensures Fold(codec, st, [line] + after, n).Err?
  {
    TableLineFails(codec, st, n);
    assert ([line] + after)[0] == line;
  }

  lemma ParseFailsByLines(codec: Codec, text: string, lines: seq<string>)
    requires Split(text, '\n') == lines && Fold(codec, START, lines, 1).Err?
    ensures Parse(codec, text).Err?
  {
  }

  lemma TextFailsAt(codec: Codec, before: seq<string>, line: string, after: seq<string>)
    requires FreeLines(before) && '\n' !in line && FreeLines(after)
    requires Fold(codec, START, before + ([line] + (after + [""])), 1).Err?
    ensures Parse(codec, Unlines(before + [line] + after)).Err?
  {
    var lines := before + [line] + after;
    FreeConcat(before, [line]);
    FreeConcat(before + [line], after);
    SplitUnlines(lines);
    WithLastEmpty(before, line, after);
    ParseFailsByLines(codec, Unlines(lines), lines + [""]);
  }

  lemma WithLastEmpty(before: seq<string>, line: string, after: seq<string>)
    ensures before + [line] + after + [""] == before + ([line] + (after + [""]))
  {
  }

  lemma TableTextFails(codec: Codec, before: seq<string>, after: seq<string>)
    requires FreeLines(before) && FreeLines(after)
    ensures Parse(codec, Unlines(before + [TABLE] + after)).Err?
  {
    TableFoldFails(codec, before, after + [""]);
    TextFailsAt(codec, before, TABLE, after);
  }

  // ------------------------------------------------------------------------ round trip

  lemma {:induction false} RetaggingKeepsLines(codec: Codec, peers: seq<Peer>)
    ensures PeersLines(codec, RetaggedPeers(codec, peers)) == PeersLines(codec, peers)
  {
    if peers != [] {
      var before, last := peers[..|peers| - 1], peers[|peers| - 1];
      RetaggingKeepsLines(codec, before);
      assert RetaggedPeers(codec, peers)[..|peers| - 1] == RetaggedPeers(codec, before);
      assert PeerLines(codec, RetaggedPeer(codec, last)) == PeerLines(codec, last) by {
        RetaggingKeepsPeer(codec, last);
      }
    }
  }

  lemma RetaggingKeepsPeer(codec: Codec, p: Peer)
    ensures EndpointValue(RetaggedPeer(codec, p).endpoint) == EndpointValue(p.endpoint)
  {
  }

  /**
   The source text of the profile fits the limit; it parses to the same profile, up to endpoint
   families, exactly when the table line is found where it stands, and otherwise does not parse at
   all; and the profile so read renders to the same text again.
   */
  ghost predicate RoundTrips(codec: Codec, p: Profile) {
    var text, again := RenderSource(codec, p), RetaggedProfile(codec, p);
    && ByteLen(text) <= MAX_PROFILE_BYTES
    && (if TableIsFound(p) then Parse(codec, text) == Ok(again) else Parse(codec, text).Err?)
    && SameButFamilies(p, again)
    && RenderSource(codec, again) == text
  }

  lemma CompleteRoundTrips(codec: Codec, p: Profile)
    requires Faithful(codec) && Complete(codec, p)
    ensures RoundTrips(codec, p)
  {
    SourceFits(codec, p);
    SurvivesIff(codec, p);
    RetaggedIsSame(codec, p);
    RetaggedRendersAlike(codec, p);
  }

  lemma RetaggedIsSame(codec: Codec, p: Profile)
    ensures SameButFamilies(p, RetaggedProfile(codec, p))
  {
  }

  lemma RetaggedRendersAlike(codec: Codec, p: Profile)
    ensures RenderSource(codec, RetaggedProfile(codec, p)) == RenderSource(codec, p)
  {
    RetaggingKeepsLines(codec, p.peers);
  }

  /** Every profile that parses makes the round trip. */
  lemma ProfileRoundTrip(codec: Codec, source: string, p: Profile)
    requires Faithful(codec) && Parse(codec, source) == Ok(p)
    ensures RoundTrips(codec, p)
  {
    ParsedIsComplete(codec, source);
    CompleteRoundTrips(codec, p);
  }

  lemma SurvivesIff(codec: Codec, p: Profile)
    requires Faithful(codec) && Complete(codec, p) && ByteLen(RenderSource(codec, p)) <= MAX_PROFILE_BYTES
    ensures if TableIsFound(p) then Parse(codec, RenderSource(codec, p)) == Ok(RetaggedProfile(codec, p))
            else Parse(codec, RenderSource(codec, p)).Err?
  {
    var key := p.interface.privateKey.value;
    if TableIsFound(p) {
      if EndsWith(key, TABLE) { SourceOfBareTableKey(codec, p); } else { SourceKeepsLines(codec, p); }
      SourceParses(codec, p);
    } else {
      SourceOfTableKey(codec, p);
      LinesBeforeAreFree(codec, p.interface);
      TailIsFree(codec, p.interface);
      PeersAreFree(codec, p.peers);
      FreeConcat(TailLines(p.interface), PeersLines(codec, p.peers));
      TableTextFails(codec, LinesBefore(codec, p.interface), RestLines(codec, p));
    }
  }

  /** A key without white space never misleads the search. */
  lemma KeysWithoutSpacesSurvive(codec: Codec, source: string, p: Profile)
    requires Faithful(codec) && Parse(codec, source) == Ok(p)
    requires p.interface.privateKey.Some? ==> forall c <- p.interface.privateKey.value :: !IsWhitespace(c)
    ensures RoundTrips(codec, p) && TableIsFound(p)
  {
    ProfileRoundTrip(codec, source, p);
    if p.interface.privateKey.Some? { SpacelessEndsOtherwise(p.interface.privateKey.value); }
  }

  lemma SpacelessEndsOtherwise(key: string)
    requires forall c <- key :: !IsWhitespace(c)
    ensures !EndsWith(key, TABLE)
  {
    assert |key| >= 11 ==> key[|key| - 11..][5] == key[|key| - 6];
    assert |key| >= 11 ==> key[|key| - 6] in key;
  }

  function TableKeyProfile(everything: Net): Profile {
    Profile(Interface(Some("x Table = off"), [everything], [], None, None), [Peer("k", None, None, [everything], None)])
  }

  lemma TableKeyIsComplete(codec: Codec, everything: Net)
    requires PrintsNet(codec, everything) && !everything.v6 && everything.length == 0
    ensures Complete(codec, TableKeyProfile(everything))
  {
    var p := TableKeyProfile(everything);
    AsciiByteLen("x Table = off");
    AsciiByteLen("k");
    assert RoutesAll(p.peers[0]) by { assert everything in p.peers[0].allowedIps; }
    assert FullTunnelPeers(p.peers) == 1 by { assert p.peers[..0] == []; }
  }

  /** A key with the table's text at its end: some source parses to it. */
  lemma TableKeyParses(codec: Codec, everything: Net)
    requires Faithful(codec) && PrintsNet(codec, everything) && !everything.v6 && everything.length == 0
    ensures Parse(codec, Unlines(SourceLines(codec, TableKeyProfile(everything)))) == Ok(TableKeyProfile(everything))
  {
    TableKeyIsComplete(codec, everything);
    NamelessSourceParses(codec, TableKeyProfile(everything));
  }

  lemma NamelessSourceParses(codec: Codec, p: Profile)
    requires Faithful(codec) && Complete(codec, p) && p.interface.dns == []
    requires forall i | 0 <= i < |p.peers| :: p.peers[i].endpoint.None?
    ensures Parse(codec, Unlines(SourceLines(codec, p))) == Ok(p)
  {
    ListedSourceFits(codec, p);
    SourceParses(codec, p);
    NamelessStaysAsIs(codec, p);
  }

  /** But the text rendered from it does not parse. */
  lemma TableKeyIsLost(codec: Codec, everything: Net)
    requires Faithful(codec) && PrintsNet(codec, everything) && !everything.v6 && everything.length == 0
    ensures Parse(codec, RenderSource(codec, TableKeyProfile(everything))).Err?
  {
    TableKeyIsComplete(codec, everything);
    TableKeyMisleads(everything);
    SourceFits(codec, TableKeyProfile(everything));
    SurvivesIff(codec, TableKeyProfile(everything));
  }

  lemma NamelessStaysAsIs(codec: Codec, p: Profile)
    requires forall i | 0 <= i < |p.peers| :: p.peers[i].endpoint.None?
    ensures RetaggedProfile(codec, p) == p
  {
    assert RetaggedPeers(codec, p.peers) == p.peers;
  }

  lemma TableKeyMisleads(everything: Net)
    ensures !TableIsFound(TableKeyProfile(everything))
  {
    assert "x Table = off"[2..] == TABLE;
  }

  lemma ListedSourceFits(codec: Codec, p: Profile)
    requires GoodInterface(codec, p.interface) && CompletePeers(codec, p.peers) && p.interface.dns == []
    ensures ByteLen(Unlines(SourceLines(codec, p))) <= MAX_PROFILE_BYTES
  {
    var head, tail, peers := HeadLines(codec, p.interface), TailLines(p.interface), PeersLines(codec, p.peers);
    HeadWeight(codec, p.interface);
    TailWeight(codec, p.interface);
    PeersWeight(codec, p.peers);
    WeightConcat(head, DnsLines(codec, p.interface));
    WeightConcat(head + DnsLines(codec, p.interface), tail);
    WeightConcat(head + DnsLines(codec, p.interface) + tail, peers);
  }

  // ------------------------------------------------------- what the rendered text decides

  lemma {:induction false} SplitsAlike(a: seq<string>, x: seq<string>, b: seq<string>, y: seq<string>)
    requires a + [TABLE] + x == b + [TABLE] + y && TABLE !in a && TABLE !in b
    ensures a == b && x == y
  {
    var s := a + [TABLE] + x;
    assert s[|a|] == TABLE && s[|b|] == TABLE;
    assert a == s[..|a|] && b == s[..|b|] && x == s[|a| + 1..] && y == s[|b| + 1..];
  }

  lemma HeadHasNoTable(codec: Codec, i: Interface)
    ensures TABLE !in HeadLines(codec, i)
  {
    assert TABLE[0] == 'T';
    assert forall line <- HeadLines(codec, i) :: line[0] != 'T' by {
      if i.privateKey.Some? { assert Directive("PrivateKey", i.privateKey.value)[0] == 'P'; }
      if i.addresses != [] { assert Directive("Address", Join(NetTexts(codec, i.addresses), ", "))[0] == 'A'; }
    }
  }

  function WithoutDns(p: Profile): Profile { p.(interface := p.interface.(dns := [])) }

  lemma SourceWithoutDns(codec: Codec, p: Profile)
    ensures SourceLines(codec, WithoutDns(p)) == HeadLines(codec, p.interface) + RestLines(codec, p)
  {
    var head := HeadLines(codec, p.interface);
    assert DnsLines(codec, WithoutDns(p).interface) == [];
    assert head + [] == head;
    Associative(head, TailLines(p.interface), PeersLines(codec, p.peers));
  }

  lemma LeadsOneWay(codec: Codec, st: State, lines: seq<string>, a: State, b: State)
    requires Leads(codec, st, lines, a) && Leads(codec, st, lines, b)
    ensures a == b
  {
    assert Fold(codec, st, lines, 1) == Ok(a);
    assert Fold(codec, st, lines, 1) == Ok(b);
  }

  lemma ReadsWithoutDns(codec: Codec, p: Profile)
    requires Faithful(codec) && Complete(codec, p)
    ensures Leads(codec, START, HeadLines(codec, p.interface) + RestLines(codec, p),
                  AfterPeers(codec, WithoutDns(p).interface, p.peers))
  {
    SourceWithoutDns(codec, p);
    ReadsSource(codec, WithoutDns(p));
  }

  /** Two complete profiles with the same wg-quick text agree on everything but DNS and endpoint families. */
  lemma RenderDetermines(codec: Codec, a: Profile, b: Profile)
    requires Faithful(codec) && Complete(codec, a) && Complete(codec, b) && Render(codec, a) == Render(codec, b)
    ensures a.interface.(dns := []) == b.interface.(dns := []) &&
            RetaggedPeers(codec, a.peers) == RetaggedPeers(codec, b.peers)
  {
    RenderLinesAgree(codec, a, b);
    BareLines(codec, a);
    BareLines(codec, b);
    SplitsAlike(HeadLines(codec, a.interface), RestLines(codec, a), HeadLines(codec, b.interface), RestLines(codec, b));
    ReadsWithoutDns(codec, a);
    ReadsWithoutDns(codec, b);
    LeadsOneWay(codec, START, HeadLines(codec, a.interface) + RestLines(codec, a),
                AfterPeers(codec, WithoutDns(a).interface, a.peers),
                AfterPeers(codec, WithoutDns(b).interface, b.peers));
  }

  lemma BareLines(codec: Codec, p: Profile)
    ensures RenderLines(codec, p) == HeadLines(codec, p.interface) + [TABLE] + RestLines(codec, p)
    ensures TABLE !in HeadLines(codec, p.interface)
  {
    Associative(HeadLines(codec, p.interface) + [TABLE], TailLines(p.interface), PeersLines(codec, p.peers));
    HeadHasNoTable(codec, p.interface);
  }

  lemma RenderLinesAgree(codec: Codec, a: Profile, b: Profile)
    requires Complete(codec, a) && Complete(codec, b) && Render(codec, a) == Render(codec, b)
    ensures RenderLines(codec, a) == RenderLines(codec, b)
  {
    RenderLinesAreFree(codec, a);
    RenderLinesAreFree(codec, b);
    SplitUnlines(RenderLines(codec, a));
    SplitUnlines(RenderLines(codec, b));
    assert RenderLines(codec, a) == Split(Render(codec, a), '\n')[..|RenderLines(codec, a)|];
    assert RenderLines(codec, b) == Split(Render(codec, b), '\n')[..|RenderLines(codec, b)|];
  }

  lemma RenderLinesAreFree(codec: Codec, p: Profile)
    requires Complete(codec, p)
    ensures FreeLines(RenderLines(codec, p))
  {
    HeadIsFree(codec, p.interface);
    TailIsFree(codec, p.interface);
    PeersAreFree(codec, p.peers);
    FreeConcat(HeadLines(codec, p.interface), [TABLE]);
    FreeConcat(HeadLines(codec, p.interface) + [TABLE], TailLines(p.interface));
    FreeConcat(HeadLines(codec, p.interface) + [TABLE] + TailLines(p.interface), PeersLines(codec, p.peers));
  }
}
