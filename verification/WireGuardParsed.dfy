/** What every parsed WireGuard profile satisfies. */
module WireGuardParsed {
  import opened Basics
  import opened Text
  import opened WireGuardProfile
  import opened WireGuardRender

  // ------------------------------------------------------------------------- the codec

  predicate CleanChar(c: char) { IsDigit(c) || 'a' <= c <= 'f' || c == '.' || c == ':' || c == '/' }

  predicate CleanText(s: string) { s != [] && forall c <- s :: CleanChar(c) }

  predicate PrintsNet(codec: Codec, n: Net) {
    codec.parseNet(codec.printNet(n)) == Some(n) && CleanText(codec.printNet(n)) && |codec.printNet(n)| <= 43
  }

  predicate PrintsAddr(codec: Codec, a: Addr) {
    codec.parseAddr(codec.printAddr(a)) == Some(a) && CleanText(codec.printAddr(a)) && |codec.printAddr(a)| <= 39
  }

  predicate PrintsSocket(codec: Codec, s: Socket) {
    && s.port <= U16_MAX && CleanText(s.host) && |s.host| <= 39
    && codec.parseSocket((if s.v4 then s.host else "[" + s.host + "]") + ":" + Decimal(s.port)) == Some(s)
  }

  predicate IsHostname(host: string) {
    host != [] && |host| <= 253 && forall c <- host :: IsLower(c) || IsDigit(c) || c == '-' || c == '.'
  }

  /** A host name with a port is no socket address unless the host name is itself an IPv4 address. */
  predicate HostnameReads(codec: Codec, host: string, port: nat) {
    var socket := codec.parseSocket(host + ":" + Decimal(port));
    socket.None? || socket == Some(Socket(host, port, true))
  }

  /** What is read can be printed, in a small alphabet and within the usual lengths, and read again. */
  ghost predicate Faithful(codec: Codec) {
    && (forall t :: codec.parseNet(t).Some? ==> PrintsNet(codec, codec.parseNet(t).value))
    && (forall t :: codec.parseAddr(t).Some? ==> PrintsAddr(codec, codec.parseAddr(t).value))
    && (forall t :: codec.parseSocket(t).Some? ==> PrintsSocket(codec, codec.parseSocket(t).value))
    && (forall host, port: nat :: IsHostname(host) && port <= U16_MAX ==> HostnameReads(codec, host, port))
  }

  // ------------------------------------------------------------------------- invariants

  predicate GoodKey(k: string) { k != "" && IsTrimmed(k) && ByteLen(k) <= 128 && '#' !in k && '\n' !in k }

  predicate Distinct<T(==)>(s: seq<T>) { forall i, j | 0 <= i < j < |s| :: s[i] != s[j] }

  predicate GoodNets(codec: Codec, nets: seq<Net>) {
    |nets| <= MAX_LIST_VALUES && Distinct(nets) && forall i | 0 <= i < |nets| :: PrintsNet(codec, nets[i])
  }

  predicate GoodAddrs(codec: Codec, addrs: seq<Addr>) {
    |addrs| <= MAX_LIST_VALUES && Distinct(addrs) && forall i | 0 <= i < |addrs| :: PrintsAddr(codec, addrs[i])
  }

  predicate GoodNumber(n: Option<nat>, minimum: nat) { n.Some? ==> minimum <= n.value <= U16_MAX }

  predicate GoodEndpoint(codec: Codec, e: Endpoint) {
    && e.port <= U16_MAX
    && match e.family
       case FamilyIpv4 => PrintsSocket(codec, Socket(e.host, e.port, true))
       case FamilyIpv6 => PrintsSocket(codec, Socket(e.host, e.port, false))
       case FamilyHostname => IsHostname(e.host)
  }

  predicate GoodInterface(codec: Codec, i: Interface) {
    && (i.privateKey.Some? ==> GoodKey(i.privateKey.value))
    && GoodNets(codec, i.addresses) && GoodAddrs(codec, i.dns)
    && GoodNumber(i.listenPort, 1) && GoodNumber(i.mtu, 576)
  }

  predicate GoodPeer(codec: Codec, p: Peer) {
    && (p.publicKey != "" ==> GoodKey(p.publicKey))
    && (p.presharedKey.Some? ==> GoodKey(p.presharedKey.value))
    && (p.endpoint.Some? ==> GoodEndpoint(codec, p.endpoint.value))
    && GoodNets(codec, p.allowedIps) && GoodNumber(p.keepalive, 0)
  }

  predicate GoodPeers(codec: Codec, peers: seq<Peer>) {
    |peers| <= MAX_PEERS && forall i | 0 <= i < |peers| :: GoodPeer(codec, peers[i])
  }

  predicate GoodProfile(codec: Codec, p: Profile) { GoodInterface(codec, p.interface) && GoodPeers(codec, p.peers) }

  /** A profile with everything `parse` demands. */
  predicate Complete(codec: Codec, p: Profile) {
    && GoodProfile(codec, p)
    && p.interface.privateKey.Some?
    && p.peers != [] && (forall i | 0 <= i < |p.peers| :: p.peers[i].publicKey != "" && p.peers[i].allowedIps != [])
    && FullTunnelPeers(p.peers) == 1
  }

  // ---------------------------------------------------------------------------- values

  predicate Plain(s: string) { '#' !in s && '\n' !in s }

  lemma TrimPlain(s: string)
    requires Plain(s)
    ensures Plain(Trim(s)) && IsTrimmed(Trim(s))
  {
    TrimIsTrimmed(s);
  }

  lemma ContentIsPlain(raw: string)
    requires '\n' !in raw
    ensures Plain(Content(raw)) && IsTrimmed(Content(raw))
  {
    SplitOnceRebuilds(raw, '#');
    var parts := SplitOnce(raw, '#');
    TrimPlain(if parts.None? then raw else parts.value.0);
  }

  lemma {:induction false} ParsePartsRead<T>(parts: seq<string>, parse: string -> Option<T>)
    ensures var r := ParseParts(parts, parse);
            r.Ok? ==> forall i | 0 <= i < |r.value| :: exists t :: parse(t) == Some(r.value[i])
  {
    if parts != [] {
      ParsePartsRead(parts[1..], parse);
      var part := Trim(parts[0]);
      if part != "" && parse(part).Some? && ParseParts(parts[1..], parse).Ok? {
        var rest, all := ParseParts(parts[1..], parse).value, ParseParts(parts, parse).value;
        forall i | 0 <= i < |all| ensures exists t :: parse(t) == Some(all[i]) {
          if i == 0 { assert parse(part) == Some(all[0]); } else { assert all[i] == rest[i - 1]; }
        }
      }
    }
  }

  lemma ExtendedIsDistinct<T>(target: seq<T>, values: seq<T>)
    requires Distinct(target) && Extended(target, values).Ok?
    ensures Distinct(target + values) && |target + values| <= MAX_LIST_VALUES
  {
    var all := target + values;
    forall i, j | 0 <= i < j < |all| ensures all[i] != all[j] {
      if |target| <= j {
        assert values[j - |target|] == all[j];
        assert !(values[j - |target|] in target || values[j - |target|] in values[..j - |target|]);
        if i < |target| { assert all[i] in target; } else { assert all[i] == values[..j - |target|][i - |target|]; }
      }
    }
  }

  lemma NetsExtend(codec: Codec, target: seq<Net>, value: string)
    requires Faithful(codec) && GoodNets(codec, target)
    ensures var r := ReadMore(target, ParseList(value, codec.parseNet)); r.Ok? ==> GoodNets(codec, r.value)
  {
    ParsePartsRead(Split(value, ','), codec.parseNet);
    var read := ParseList(value, codec.parseNet);
    if read.Ok? && Extended(target, read.value).Ok? {
      ExtendedIsDistinct(target, read.value);
      forall i | 0 <= i < |read.value| ensures PrintsNet(codec, read.value[i]) {
        var t :| codec.parseNet(t) == Some(read.value[i]);
        assert codec.parseNet(t).Some?;
      }
    }
  }

  lemma AddrsExtend(codec: Codec, target: seq<Addr>, value: string)
    requires Faithful(codec) && GoodAddrs(codec, target)
    ensures var r := ReadMore(target, ParseList(value, codec.parseAddr)); r.Ok? ==> GoodAddrs(codec, r.value)
  {
    ParsePartsRead(Split(value, ','), codec.parseAddr);
    var read := ParseList(value, codec.parseAddr);
    if read.Ok? && Extended(target, read.value).Ok? {
      ExtendedIsDistinct(target, read.value);
      forall i | 0 <= i < |read.value| ensures PrintsAddr(codec, read.value[i]) {
        var t :| codec.parseAddr(t) == Some(read.value[i]);
        assert codec.parseAddr(t).Some?;
      }
    }
  }

  lemma SecretIsGood(value: string)
    requires Plain(value)
    ensures ParseSecret(value).Ok? ==> GoodKey(ParseSecret(value).value)
  {
    TrimPlain(value);
  }

  lemma LowerHostname(host: string)
    requires host != "" && |host| <= 253 && forall c <- host :: HostnameChar(c)
    ensures IsHostname(Lower(host))
  {
    forall i | 0 <= i < |host| ensures HostnameChar(host[i]) && !IsUpper(Lower(host)[i]) { assert host[i] in host; }
  }

  lemma EndpointIsGood(codec: Codec, value: string)
    requires Faithful(codec)
    ensures ParseEndpoint(codec, value).Ok? ==> GoodEndpoint(codec, ParseEndpoint(codec, value).value)
  {
    if codec.parseSocket(value).Some? {
      assert PrintsSocket(codec, codec.parseSocket(value).value);
    } else if ParseEndpoint(codec, value).Ok? {
      LowerHostname(Trim(SplitLast(value, ':').value.0));
    }
  }

  // ----------------------------------------------------------------------------- steps

  lemma InterfaceStaysGood(codec: Codec, i: Interface, field: Field, value: string)
    requires Faithful(codec) && GoodInterface(codec, i) && Plain(value)
    ensures var r := SetInterface(codec, i, field, value); r.Ok? ==> GoodInterface(codec, r.value)
  {
    match field
    case PrivateKey => SecretIsGood(value);
    case Address => NetsExtend(codec, i.addresses, value);
    case Dns => AddrsExtend(codec, i.dns, value);
    case _ =>
  }

  lemma PeerStaysGood(codec: Codec, p: Peer, field: Field, value: string)
    requires Faithful(codec) && GoodPeer(codec, p) && Plain(value) && IsTrimmed(value)
    ensures var r := SetPeer(codec, p, field, value); r.Ok? ==> GoodPeer(codec, r.value)
  {
    match field
    case PresharedKey => SecretIsGood(value);
    case AllowedIps => NetsExtend(codec, p.allowedIps, value);
    case EndpointField => EndpointIsGood(codec, value);
    case _ =>
  }

  lemma StepStaysGood(codec: Codec, st: State, raw: string, line: nat)
    requires st.Valid() && Faithful(codec) && GoodProfile(codec, st.profile) && '\n' !in raw
    ensures var r := StepLine(codec, st, raw, line); r.Ok? ==> GoodProfile(codec, r.value.profile)
  {
    var content := Content(raw);
    ContentIsPlain(raw);
    if content != "" && content[0] != '[' {
      var parts := SplitOnce(content, '=');
      SplitOnceRebuilds(content, '=');
      if parts.Some? {
        var key, value := Trim(parts.value.0), Trim(parts.value.1);
        assert Plain(parts.value.1) by { assert forall c <- parts.value.1 :: c in content; }
        TrimPlain(parts.value.1);
        if st.section.InInterface? {
          InterfaceStaysGood(codec, st.profile.interface, InterfaceField(Lower(key)), value);
        }
        if st.section.InPeer? {
          PeerStaysGood(codec, st.profile.peers[st.section.index], PeerField(Lower(key)), value);
        }
      }
    }
  }

  lemma {:induction false} FoldStaysGood(codec: Codec, st: State, lines: seq<string>, line: nat)
    requires st.Valid() && Faithful(codec) && GoodProfile(codec, st.profile)
    requires forall i | 0 <= i < |lines| :: '\n' !in lines[i]
    ensures var r := Fold(codec, st, lines, line); r.Ok? ==> GoodProfile(codec, r.value.profile)
    decreases |lines|
  {
    if lines != [] {
      StepStaysGood(codec, st, lines[0], line);
      var next := StepLine(codec, st, lines[0], line);
      if next.Ok? { FoldStaysGood(codec, next.value, lines[1..], line + 1); }
    }
  }

  lemma {:induction false} PeersAreComplete(peers: seq<Peer>, from: nat)
    requires from <= |peers| && IncompletePeer(peers, from).None?
    ensures forall i | from <= i < |peers| :: peers[i].publicKey != "" && peers[i].allowedIps != []
    decreases |peers| - from
  {
    if from < |peers| { PeersAreComplete(peers, from + 1); }
  }

  /** Whatever the text, a profile that parses is complete and all its parts can be printed. */
  lemma ParsedIsComplete(codec: Codec, source: string)
    requires Faithful(codec) && Parse(codec, source).Ok?
    ensures Complete(codec, Parse(codec, source).value)
  {
    SplitPiecesAreFree(source, '\n');
    FoldStaysGood(codec, START, Split(source, '\n'), 1);
    PeersAreComplete(Parse(codec, source).value.peers, 0);
  }
}
