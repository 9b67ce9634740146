/** Reading back the lines a complete profile is rendered to. */
module WireGuardReading {
  import opened Basics
  import opened Text
  import opened WireGuardProfile
  import opened WireGuardRender
  import opened WireGuardParsed

  // ---------------------------------------------------------------------------- values

  lemma SpaceIsTrimmed(s: string)
    ensures Trim(" " + s) == Trim(s)
  {
    assert (" " + s)[1..] == s;
  }

  lemma TrimBeforeSpace(s: string)
    requires s != "" && IsTrimmed(s)
    ensures Trim(s + " ") == s
  {
    assert (s + " ")[0] == s[0];
    assert (s + " ")[..|s|] == s;
    assert TrimEnd(s + " ") == TrimEnd(s);
  }

  lemma LeadingSpaceParts<T>(s: string, parse: string -> Option<T>)
    ensures ParseParts(Split(" " + s, ','), parse) == ParseParts(Split(s, ','), parse)
  {
    var parts := Split(s, ',');
    assert (" " + s)[1..] == s;
    assert Split(" " + s, ',') == [" " + parts[0]] + parts[1..];
    SpaceIsTrimmed(parts[0]);
  }

  /** A comma-separated list of clean texts reads as the values they stand for. */
  lemma {:induction false} ListReads<T>(texts: seq<string>, values: seq<T>, parse: string -> Option<T>)
    requires |texts| == |values| > 0
    requires forall i | 0 <= i < |texts| :: CleanText(texts[i]) && parse(texts[i]) == Some(values[i])
    ensures ParseParts(Split(Join(texts, ", "), ','), parse) == Ok(values)
  {
    var first, rest := texts[0], texts[1..];
    CleanIsTrimmed(first);
    if rest == [] {
      SplitWhole(first, ',');
      OnePart(first, [], parse);
      assert [first] + [] == [first] && Join(texts, ", ") == first;
      assert [values[0]] + [] == values;
    } else {
      var tail := Join(rest, ", ");
      ListReads(rest, values[1..], parse);
      LeadingSpaceParts(tail, parse);
      SplitFirst(first, ',', " " + tail);
      assert Join(texts, ", ") == first + [','] + (" " + tail);
      OnePart(first, Split(" " + tail, ','), parse);
      assert values == [values[0]] + values[1..];
    }
  }

  lemma OnePart<T>(first: string, rest: seq<string>, parse: string -> Option<T>)
    requires first != "" && IsTrimmed(first) && parse(first).Some? && ParseParts(rest, parse).Ok?
    ensures ParseParts([first] + rest, parse) == Ok([parse(first).value] + ParseParts(rest, parse).value)
  {
    TrimOfTrimmed(first);
    assert ([first] + rest)[1..] == rest;
  }

  lemma CleanIsTrimmed(s: string)
    requires CleanText(s)
    ensures IsTrimmed(s) && Plain(s) && ',' !in s && '=' !in s && 'o' !in s
  {
    assert s[0] in s && s[|s| - 1] in s;
  }

  lemma {:induction false} JoinedIsPlain(texts: seq<string>)
    requires texts != [] && forall i | 0 <= i < |texts| :: CleanText(texts[i])
    ensures var all := Join(texts, ", ");
            all != "" && IsTrimmed(all) && Plain(all) && 'o' !in all && '=' !in all
  {
    CleanIsTrimmed(texts[0]);
    if |texts| > 1 {
      JoinedIsPlain(texts[1..]);
      var all, rest := Join(texts, ", "), Join(texts[1..], ", ");
      assert all == texts[0] + ", " + rest;
      assert all[0] == texts[0][0] && all[|all| - 1] == rest[|rest| - 1];
    }
  }

  lemma NetsRead(codec: Codec, nets: seq<Net>)
    requires GoodNets(codec, nets) && nets != []
    ensures ReadMore([], ParseList(Join(NetTexts(codec, nets), ", "), codec.parseNet)) == Ok(nets)
    ensures GoodValue(Join(NetTexts(codec, nets), ", "))
  {
    ListReads(NetTexts(codec, nets), nets, codec.parseNet);
    JoinedIsPlain(NetTexts(codec, nets));
    NothingRepeats(nets);
  }

  lemma AddrsRead(codec: Codec, addrs: seq<Addr>)
    requires GoodAddrs(codec, addrs) && addrs != []
    ensures ReadMore([], ParseList(Join(AddrTexts(codec, addrs), ", "), codec.parseAddr)) == Ok(addrs)
    ensures GoodValue(Join(AddrTexts(codec, addrs), ", "))
  {
    ListReads(AddrTexts(codec, addrs), addrs, codec.parseAddr);
    JoinedIsPlain(AddrTexts(codec, addrs));
    NothingRepeats(addrs);
  }

  lemma NothingRepeats<T>(values: seq<T>)
    requires Distinct(values) && |values| <= MAX_LIST_VALUES
    ensures Extended([], values) == Ok(values)
  {
    forall i | 0 <= i < |values| ensures values[i] !in values[..i] {}
    assert [] + values == values;
  }

  lemma NumberReads(n: nat, minimum: nat)
    requires minimum <= n <= U16_MAX
    ensures ParseNumber(Decimal(n), minimum) == Ok(n) && GoodValue(Decimal(n))
  {
    ParseDecimal(n, U16_MAX);
    DecimalIsClean(n);
  }

  lemma DecimalIsClean(n: nat)
    ensures CleanText(Decimal(n)) && GoodValue(Decimal(n)) && ':' !in Decimal(n) && 'o' !in Decimal(n)
  {
    DecimalValue(n);
    CleanIsTrimmed(Decimal(n));
  }

  lemma KeyReads(k: string)
    requires GoodKey(k)
    ensures ParseSecret(k) == Ok(k) && SetKeyOnce("", k) == Ok(k) && GoodValue(k)
  {
    TrimOfTrimmed(k);
  }

  // -------------------------------------------------------------------------- endpoints

  /** The family a rendered endpoint is read back with: a host name may turn out to be an IPv4 address. */
  function Retagged(codec: Codec, e: Endpoint): Endpoint {
    if e.family == FamilyHostname && codec.parseSocket(EndpointText(e)).Some? then e.(family := FamilyIpv4) else e
  }

  lemma {:induction false} SplitLastAt(a: string, sep: char, b: string)
    requires sep !in b
    ensures SplitLast(a + [sep] + b, sep) == Some((a, b))
  {
    var s := a + [sep] + b;
    if b == [] {
      assert s[..|s| - 1] == a;
    } else {
      SplitLastAt(a, sep, b[..|b| - 1]);
      assert s[..|s| - 1] == a + [sep] + b[..|b| - 1];
      assert b == b[..|b| - 1] + [b[|b| - 1]];
    }
  }

  lemma HostnameIsLower(host: string)
    requires IsHostname(host)
    ensures Lower(host) == host && IsTrimmed(host) && Trim(host) == host && forall c <- host :: HostnameChar(c)
  {
    forall i | 0 <= i < |host| ensures Lower(host)[i] == host[i] { assert host[i] in host; }
    assert host[0] in host && host[|host| - 1] in host;
    TrimOfTrimmed(host);
  }

  lemma EndpointReads(codec: Codec, e: Endpoint)
    requires Faithful(codec) && GoodEndpoint(codec, e)
    ensures ParseEndpoint(codec, EndpointText(e)) == Ok(Retagged(codec, e))
  {
    if e.family == FamilyHostname {
      assert HostnameReads(codec, e.host, e.port);
      if codec.parseSocket(EndpointText(e)).None? { HostnameEndpointReads(codec, e.host, e.port); }
    }
  }

  lemma EndpointSplits(codec: Codec, host: string, digits: string, port: nat)
    requires IsHostname(host) && codec.parseSocket(host + ":" + digits).None?
    requires ':' !in digits && ParseUnsigned(digits, U16_MAX) == Some(port)
    ensures ParseEndpoint(codec, host + ":" + digits) == Ok(Endpoint(host, port, FamilyHostname))
  {
    SplitLastAt(host, ':', digits);
    HostnameIsLower(host);
    assert host[0] in host && host[|host| - 1] in host;
  }

  lemma HostnameEndpointReads(codec: Codec, host: string, port: nat)
    requires IsHostname(host) && port <= U16_MAX && codec.parseSocket(host + ":" + Decimal(port)).None?
    ensures ParseEndpoint(codec, host + ":" + Decimal(port)) == Ok(Endpoint(host, port, FamilyHostname))
  {
    DecimalIsClean(port);
    ParseDecimal(port, U16_MAX);
    EndpointSplits(codec, host, Decimal(port), port);
  }

  lemma EndpointIsPlain(codec: Codec, e: Endpoint)
    requires GoodEndpoint(codec, e)
    ensures GoodValue(EndpointText(e))
  {
    DecimalIsClean(e.port);
    var text, port := EndpointText(e), Decimal(e.port);
    if e.family == FamilyHostname { HostnameIsLower(e.host); } else { CleanIsTrimmed(e.host); }
    assert text[|text| - 1] == port[|port| - 1];
    assert text[0] == if e.family == FamilyIpv6 then '[' else e.host[0];
    assert e.host[0] in e.host;
    assert forall c <- e.host :: c != '#' && c != '\n';
  }

  // -------------------------------------------------------------------------- directives

  predicate GoodValue(value: string) { value != "" && IsTrimmed(value) && Plain(value) }

  predicate Letters(name: string) { name != "" && forall c <- name :: IsLower(c) || IsUpper(c) }

  lemma DirectiveIsContent(name: string, value: string)
    requires Letters(name) && GoodValue(value)
    ensures Content(Directive(name, value)) == Directive(name, value)
    ensures Directive(name, value) != "" && Directive(name, value)[0] != '['
    ensures Plain(Directive(name, value))
  {
    var line := Directive(name, value);
    assert name[0] in name;
    assert line[0] == name[0] && line[|line| - 1] == value[|value| - 1];
    assert '#' !in name && '\n' !in name;
    SplitOnceRebuilds(line, '#');
    TrimOfTrimmed(line);
  }

  lemma DirectiveSplits(name: string, value: string)
    requires Letters(name) && GoodValue(value)
    ensures SplitOnce(Directive(name, value), '=') == Some((name + " ", " " + value))
    ensures Trim(name + " ") == name && Trim(" " + value) == value
  {
    assert name[0] in name && name[|name| - 1] in name;
    SplitOnceAt(name + " ", '=', " " + value);
    assert Directive(name, value) == name + " " + "=" + (" " + value);
    TrimBeforeSpace(name);
    SpaceIsTrimmed(value);
    TrimOfTrimmed(value);
  }

  lemma DirectiveSteps(codec: Codec, st: State, name: string, value: string, line: nat)
    requires st.Valid() && !st.section.Outside? && Letters(name) && GoodValue(value)
    ensures StepLine(codec, st, Directive(name, value), line) == StepDirective(codec, st, name, value, line)
  {
    DirectiveIsContent(name, value);
    DirectiveSplits(name, value);
  }

  // -------------------------------------------------------------------------- runs of lines

  /** From one state the lines lead to the other, wherever they stand in the file. */
  ghost predicate Leads(codec: Codec, st: State, lines: seq<string>, next: State) {
    st.Valid() && forall n: nat :: Fold(codec, st, lines, n) == Ok(next)
  }

  lemma {:induction false} FoldConcat(codec: Codec, st: State, a: seq<string>, b: seq<string>, line: nat)
    requires st.Valid()
    ensures var first := Fold(codec, st, a, line);
            Fold(codec, st, a + b, line) == if first.Err? then first else Fold(codec, first.value, b, line + |a|)
    decreases |a|
  {
    if a == [] {
      assert a + b == b;
    } else {
      var next := StepLine(codec, st, a[0], line);
      assert (a + b)[0] == a[0] && (a + b)[1..] == a[1..] + b;
      if next.Ok? { FoldConcat(codec, next.value, a[1..], b, line + 1); }
    }
  }

  lemma LeadsConcat(codec: Codec, st: State, a: seq<string>, middle: State, b: seq<string>, end: State)
    requires Leads(codec, st, a, middle) && Leads(codec, middle, b, end)
    ensures Leads(codec, st, a + b, end)
  {
    forall n: nat ensures Fold(codec, st, a + b, n) == Ok(end) {
      FoldConcat(codec, st, a, b, n);
      assert Fold(codec, st, a, n) == Ok(middle);
      assert Fold(codec, middle, b, n + |a|) == Ok(end);
    }
  }

  lemma LeadsNowhere(codec: Codec, st: State)
    requires st.Valid()
    ensures Leads(codec, st, [], st)
  {
  }

  lemma LeadsByOne(codec: Codec, st: State, line: string, next: State)
    requires st.Valid() && forall n: nat :: StepLine(codec, st, line, n) == Ok(next)
    ensures Leads(codec, st, [line], next)
  {
    forall n: nat ensures Fold(codec, st, [line], n) == Ok(next) {
      assert StepLine(codec, st, line, n) == Ok(next);
      assert [line][1..] == [];
    }
  }

  lemma InterfaceDirective(codec: Codec, st: State, name: string, value: string, after: Interface)
    requires st.Valid() && st.section.InInterface? && Letters(name) && GoodValue(value) && Owned(name).None?
    requires SetInterface(codec, st.profile.interface, InterfaceField(Lower(name)), value) == Ok(after)
    ensures Leads(codec, st, [Directive(name, value)], st.(profile := st.profile.(interface := after)))
  {
    var next := st.(profile := st.profile.(interface := after));
    forall n: nat ensures StepLine(codec, st, Directive(name, value), n) == Ok(next) {
      DirectiveSteps(codec, st, name, value, n);
    }
    LeadsByOne(codec, st, Directive(name, value), next);
  }

  lemma PeerDirective(codec: Codec, st: State, name: string, value: string, after: Peer)
    requires st.Valid() && st.section.InPeer? && Letters(name) && GoodValue(value) && Owned(name).None?
    requires SetPeer(codec, st.profile.peers[st.section.index], PeerField(Lower(name)), value) == Ok(after)
    ensures Leads(codec, st, [Directive(name, value)],
                  st.(profile := st.profile.(peers := st.profile.peers[st.section.index := after])))
  {
    var next := st.(profile := st.profile.(peers := st.profile.peers[st.section.index := after]));
    forall n: nat ensures StepLine(codec, st, Directive(name, value), n) == Ok(next) {
      DirectiveSteps(codec, st, name, value, n);
    }
    LeadsByOne(codec, st, Directive(name, value), next);
  }

  // The names as they are rendered, and the fields they are read as.

  predicate NamesInterface(name: string, field: Field) {
    Letters(name) && Owned(name).None? && InterfaceField(Lower(name)) == field
  }

  predicate NamesPeer(name: string, field: Field) {
    Letters(name) && Owned(name).None? && PeerField(Lower(name)) == field
  }

  lemma KeyName() ensures NamesInterface("PrivateKey", PrivateKey) { assert Lower("PrivateKey") == "privatekey"; }

  lemma AddressName() ensures NamesInterface("Address", Address) { assert Lower("Address") == "address"; }

  lemma DnsName() ensures NamesInterface("DNS", Dns) { assert Lower("DNS") == "dns"; }

  lemma ListenPortName()
    ensures NamesInterface("ListenPort", ListenPort)
  {
    assert Lower("ListenPort") == "listenport";
  }

  lemma MtuName() ensures NamesInterface("MTU", Mtu) { assert Lower("MTU") == "mtu"; }

  lemma PublicKeyName() ensures NamesPeer("PublicKey", PublicKey) { assert Lower("PublicKey") == "publickey"; }

  lemma PresharedKeyName()
    ensures NamesPeer("PresharedKey", PresharedKey)
  {
    assert Lower("PresharedKey") == "presharedkey";
  }

  lemma EndpointName() ensures NamesPeer("Endpoint", EndpointField) { assert Lower("Endpoint") == "endpoint"; }

  lemma AllowedIpsName() ensures NamesPeer("AllowedIPs", AllowedIps) { assert Lower("AllowedIPs") == "allowedips"; }

  lemma KeepaliveName() ensures NamesPeer("PersistentKeepalive", PersistentKeepalive) {
    assert Lower("Persistent") == "persistent" && Lower("Keepalive") == "keepalive";
    assert Lower("Persistent" + "Keepalive") == Lower("Persistent") + Lower("Keepalive");
    assert "Persistent" + "Keepalive" == "PersistentKeepalive";
  }
}
