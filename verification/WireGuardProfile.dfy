/** WireGuard profiles and their parser, as in src/wireguard.rs. */
module WireGuardProfile {
  import opened Basics
  import opened Text

  const MAX_PROFILE_BYTES := 262144
  const MAX_PEERS := 32
  const MAX_LIST_VALUES := 128

  // ------------------------------------------------------------------------------ data

  datatype Net = Net(v6: bool, address: nat, length: nat)

  datatype Addr = Addr(v6: bool, value: nat)

  datatype Family = FamilyIpv4 | FamilyIpv6 | FamilyHostname

  datatype Endpoint = Endpoint(host: string, port: nat, family: Family)

  datatype Interface = Interface(
    privateKey: Option<string>, addresses: seq<Net>, dns: seq<Addr>, listenPort: Option<nat>, mtu: Option<nat>)

  datatype Peer = Peer(
    publicKey: string, presharedKey: Option<string>, endpoint: Option<Endpoint>, allowedIps: seq<Net>,
    keepalive: Option<nat>)

  datatype Profile = Profile(interface: Interface, peers: seq<Peer>)

  /** A socket address in numeric form; `host` is its address as printed. */
  datatype Socket = Socket(host: string, port: nat, v4: bool)

  /** How networks, addresses and socket addresses are read and printed. */
  datatype Codec = Codec(
    parseNet: string -> Option<Net>, printNet: Net -> string,
    parseAddr: string -> Option<Addr>, printAddr: Addr -> string,
    parseSocket: string -> Option<Socket>)

  datatype Problem =
    | TooLarge | MisplacedInterface | TooManyPeers | PeerBeforeInterface | UnknownSection | OutsideSection
    | NoEquals | TableIsOwned | HookProhibited | UnknownDirective
    | BadSecret | BadKey | Repeated | TooManyValues | DuplicateValue | BadAddress | NoValue
    | BadInteger | OutOfRange | NoPort | MalformedBrackets | BadHostname | BadPort
    | NoInterface | NoPeer | NoPrivateKey | NoPublicKey(peer: nat) | NoAllowedIps(peer: nat)
    | NoFullTunnel | AmbiguousTunnel

  datatype ProfileError = At(field: string, line: nat, problem: Problem) | General(problem: Problem)

  // ------------------------------------------------------------------------- directives

  function ParseSecret(value: string): Result<string, Problem> {
    var secret := Trim(value);
    if secret == "" || ByteLen(secret) > 128 then Err(BadSecret) else Ok(secret)
  }

  function ParseNumber(value: string, minimum: nat): Result<nat, Problem> {
    var n := ParseUnsigned(value, U16_MAX);
    if n.None? then Err(BadInteger) else if n.value < minimum then Err(OutOfRange) else Ok(n.value)
  }

  function SetOnce<T>(target: Option<T>, value: T): Result<T, Problem> {
    if target.Some? then Err(Repeated) else Ok(value)
  }

  /** Repeats a value already listed, or listed before it in the same directive. */
  predicate RepeatsValue<T(==)>(target: seq<T>, values: seq<T>) {
    exists i | 0 <= i < |values| :: values[i] in target || values[i] in values[..i]
  }

  function Extended<T(==)>(target: seq<T>, values: seq<T>): Result<seq<T>, Problem> {
    if |target| + |values| > MAX_LIST_VALUES then Err(TooManyValues)
    else if RepeatsValue(target, values) then Err(DuplicateValue)
    else Ok(target + values)
  }

  method ExtendUnique<T(==)>(target: seq<T>, values: seq<T>) returns (r: Result<seq<T>, Problem>)
    ensures r == Extended(target, values)
  {
    if |target| + |values| > MAX_LIST_VALUES { return Err(TooManyValues); }
    var list := target;
    for n := 0 to |values|
      invariant list == target + values[..n]
      invariant forall i | 0 <= i < n :: values[i] !in target && values[i] !in values[..i]
    {
      if values[n] in list {
        assert values[n] in target || values[n] in values[..n];
        return Err(DuplicateValue);
      }
      list := list + [values[n]];
    }
    assert values[..|values|] == values;
    return Ok(list);
  }

  function ParseParts<T>(parts: seq<string>, parse: string -> Option<T>): Result<seq<T>, Problem> {
    if parts == [] then Ok([])
    else
      var part := Trim(parts[0]);
      if part == "" then ParseParts(parts[1..], parse)
      else if parse(part).None? then Err(BadAddress)
      else
        var rest := ParseParts(parts[1..], parse);
        if rest.Err? then rest else Ok([parse(part).value] + rest.value)
  }

  function ParseList<T>(value: string, parse: string -> Option<T>): Result<seq<T>, Problem> {
    var values := ParseParts(Split(value, ','), parse);
    if values.Ok? && values.value == [] then Err(NoValue) else values
  }

  predicate HostnameChar(c: char) { IsLower(c) || IsUpper(c) || IsDigit(c) || c == '-' || c == '.' }

  /** Text before and after the last separator. */
  function SplitLast(s: string, sep: char): Option<(string, string)> {
    if s == [] then None
    else if s[|s| - 1] == sep then Some((s[..|s| - 1], ""))
    else
      var rest := SplitLast(s[..|s| - 1], sep);
      if rest.None? then None else Some((rest.value.0, rest.value.1 + [s[|s| - 1]]))
  }

  function ParseEndpoint(codec: Codec, value: string): Result<Endpoint, Problem> {
    var socket := codec.parseSocket(value);
    if socket.Some?
    then Ok(Endpoint(socket.value.host, socket.value.port, if socket.value.v4 then FamilyIpv4 else FamilyIpv6))
    else
      var parts := SplitLast(value, ':');
      if parts.None? then Err(NoPort)
      else
        var host := Trim(parts.value.0);
        if (host != "" && host[0] == '[') || (host != "" && host[|host| - 1] == ']') then Err(MalformedBrackets)
        else if host == "" || |host| > 253 || exists c <- host :: !HostnameChar(c) then Err(BadHostname)
        else
          var port := ParseUnsigned(parts.value.1, U16_MAX);
          if port.None? then Err(BadPort) else Ok(Endpoint(Lower(host), port.value, FamilyHostname))
  }

  /** Reads a value and sets a field that may be set once. */
  function ReadOnce<T>(target: Option<T>, read: Result<T, Problem>): Result<T, Problem> {
    if read.Err? then read else SetOnce(target, read.value)
  }

  /** Reads a list and appends it to a field. */
  function ReadMore<T(==)>(target: seq<T>, read: Result<seq<T>, Problem>): Result<seq<T>, Problem> {
    if read.Err? then read else Extended(target, read.value)
  }

  datatype Field =
    | PrivateKey | Address | Dns | ListenPort | Mtu
    | PublicKey | PresharedKey | EndpointField | AllowedIps | PersistentKeepalive
    | Unknown

  function InterfaceField(name: string): Field {
    if name == "privatekey" then PrivateKey
    else if name == "address" then Address
    else if name == "dns" then Dns
    else if name == "listenport" then ListenPort
    else if name == "mtu" then Mtu
    else Unknown
  }

  function PeerField(name: string): Field {
    if name == "publickey" then PublicKey
    else if name == "presharedkey" then PresharedKey
    else if name == "endpoint" then EndpointField
    else if name == "allowedips" then AllowedIps
    else if name == "persistentkeepalive" then PersistentKeepalive
    else Unknown
  }

  function SetInterface(codec: Codec, i: Interface, field: Field, value: string): Result<Interface, Problem> {
    match field
    case PrivateKey =>
      var r := ReadOnce(i.privateKey, ParseSecret(value));
      if r.Err? then Err(r.error) else Ok(i.(privateKey := Some(r.value)))
    case Address =>
      var r := ReadMore(i.addresses, ParseList(value, codec.parseNet));
      if r.Err? then Err(r.error) else Ok(i.(addresses := r.value))
    case Dns =>
      var r := ReadMore(i.dns, ParseList(value, codec.parseAddr));
      if r.Err? then Err(r.error) else Ok(i.(dns := r.value))
    case ListenPort =>
      var r := ReadOnce(i.listenPort, ParseNumber(value, 1));
      if r.Err? then Err(r.error) else Ok(i.(listenPort := Some(r.value)))
    case Mtu =>
      var r := ReadOnce(i.mtu, ParseNumber(value, 576));
      if r.Err? then Err(r.error) else Ok(i.(mtu := Some(r.value)))
    case _ => Err(UnknownDirective)
  }

  function SetKeyOnce(target: string, value: string): Result<string, Problem> {
    if target != "" then Err(Repeated) else if value == "" || ByteLen(value) > 128 then Err(BadKey) else Ok(value)
  }

  function SetPeer(codec: Codec, p: Peer, field: Field, value: string): Result<Peer, Problem> {
    match field
    case PublicKey =>
      var r := SetKeyOnce(p.publicKey, value);
      if r.Err? then Err(r.error) else Ok(p.(publicKey := r.value))
    case PresharedKey =>
      var r := ReadOnce(p.presharedKey, ParseSecret(value));
      if r.Err? then Err(r.error) else Ok(p.(presharedKey := Some(r.value)))
    case EndpointField =>
      var r := ReadOnce(p.endpoint, ParseEndpoint(codec, value));
      if r.Err? then Err(r.error) else Ok(p.(endpoint := Some(r.value)))
    case AllowedIps =>
      var r := ReadMore(p.allowedIps, ParseList(value, codec.parseNet));
      if r.Err? then Err(r.error) else Ok(p.(allowedIps := r.value))
    case PersistentKeepalive =>
      var r := ReadOnce(p.keepalive, ParseNumber(value, 0));
      if r.Err? then Err(r.error) else Ok(p.(keepalive := Some(r.value)))
    case _ => Err(UnknownDirective)
  }

  // ------------------------------------------------------------------------------ lines

  datatype Section = Outside | InInterface | InPeer(index: nat)

  datatype State = State(profile: Profile, section: Section, interfaceSeen: bool) {
    predicate Valid() { section.InPeer? ==> section.index < |profile.peers| }
  }

  const NO_INTERFACE := Interface(None, [], [], None, None)
  const NO_PEER := Peer("", None, None, [], None)
  const START := State(Profile(NO_INTERFACE, []), Outside, false)

  /** A line without its comment and surrounding white space. */
  function Content(raw: string): string {
    var parts := SplitOnce(raw, '#');
    Trim(if parts.None? then raw else parts.value.0)
  }

  function Owned(key: string): Option<Problem> {
    var name := Lower(key);
    if name == "table" then Some(TableIsOwned)
    else if name in {"saveconfig", "preup", "postup", "predown", "postdown"} then Some(HookProhibited)
    else None
  }

  // The names errors carry: a field is named as documented, an unknown directive as written.

  function OwnedName(key: string): string { if Lower(key) == "table" then "Interface.Table" else key }

  function InterfaceName(key: string): string {
    match InterfaceField(Lower(key))
    case PrivateKey => "Interface.PrivateKey"
    case Address => "Interface.Address"
    case Dns => "Interface.DNS"
    case ListenPort => "Interface.ListenPort"
    case Mtu => "Interface.MTU"
    case _ => "Interface." + key
  }

  function PeerName(n: nat, key: string, problem: Problem): string {
    var peer := "Peer[" + Decimal(n + 1) + "].";
    match PeerField(Lower(key))
    case PublicKey => peer + "PublicKey"
    case PresharedKey => if problem == BadSecret then "Peer.PresharedKey" else peer + "PresharedKey"
    case EndpointField => peer + "Endpoint"
    case AllowedIps => peer + "AllowedIPs"
    case PersistentKeepalive => peer + "PersistentKeepalive"
    case _ => peer + key
  }

  function StepSection(st: State, heading: string, line: nat): (r: Result<State, ProfileError>)
    ensures r.Ok? ==> r.value.Valid()
  {
    if heading == "[interface]" then
      if !st.interfaceSeen && st.profile.peers == [] then Ok(State(st.profile, InInterface, true))
      else Err(At("section", line, MisplacedInterface))
    else if heading == "[peer]" then
      if !st.interfaceSeen then Err(At("section", line, PeerBeforeInterface))
      else if |st.profile.peers| == MAX_PEERS then Err(At("section", line, TooManyPeers))
      else Ok(State(Profile(st.profile.interface, st.profile.peers + [NO_PEER]), InPeer(|st.profile.peers|), true))
    else Err(At("section", line, UnknownSection))
  }

  function StepDirective(codec: Codec, st: State, key: string, value: string, line: nat)
    : (r: Result<State, ProfileError>)
    requires st.Valid()
    ensures r.Ok? ==> r.value.Valid() && r.value.section == st.section && r.value.interfaceSeen == st.interfaceSeen
    ensures r.Ok? ==> |r.value.profile.peers| == |st.profile.peers|
  {
    if Owned(key).Some? then Err(At(OwnedName(key), line, Owned(key).value))
    else
      match st.section
      case Outside => Err(At("section", line, OutsideSection))
      case InInterface =>
        var r := SetInterface(codec, st.profile.interface, InterfaceField(Lower(key)), value);
        if r.Err? then Err(At(InterfaceName(key), line, r.error))
        else Ok(st.(profile := st.profile.(interface := r.value)))
      case InPeer(n) =>
        var r := SetPeer(codec, st.profile.peers[n], PeerField(Lower(key)), value);
        if r.Err? then Err(At(PeerName(n, key, r.error), line, r.error))
        else Ok(st.(profile := st.profile.(peers := st.profile.peers[n := r.value])))
  }

  function StepLine(codec: Codec, st: State, raw: string, line: nat): (r: Result<State, ProfileError>)
    requires st.Valid()
    ensures r.Ok? ==> r.value.Valid()
  {
    var content := Content(raw);
    if content == "" then Ok(st)
    else if content[0] == '[' then StepSection(st, Lower(content), line)
    else if st.section.Outside? then Err(At("section", line, OutsideSection))
    else
      var parts := SplitOnce(content, '=');
      if parts.None? then Err(At("directive", line, NoEquals))
      else StepDirective(codec, st, Trim(parts.value.0), Trim(parts.value.1), line)
  }

  /** All the lines, from the given state and line number. */
  function Fold(codec: Codec, st: State, lines: seq<string>, line: nat): (r: Result<State, ProfileError>)
    requires st.Valid()
    ensures r.Ok? ==> r.value.Valid()
    decreases |lines|
  {
    if lines == [] then Ok(st)
    else
      var next := StepLine(codec, st, lines[0], line);
      if next.Err? then next else Fold(codec, next.value, lines[1..], line + 1)
  }

  // -------------------------------------------------------------------------- the whole

  predicate RoutesAll(p: Peer) { exists n <- p.allowedIps :: !n.v6 && n.length == 0 }

  function FullTunnelPeers(peers: seq<Peer>): nat {
    if peers == [] then 0 else FullTunnelPeers(peers[..|peers| - 1]) + (if RoutesAll(peers[|peers| - 1]) then 1 else 0)
  }

  /** The first peer lacking a key or ranges. */
  function IncompletePeer(peers: seq<Peer>, from: nat): Option<Problem>
    requires from <= |peers|
    decreases |peers| - from
  {
    if from == |peers| then None
    else if peers[from].publicKey == "" then Some(NoPublicKey(from))
    else if peers[from].allowedIps == [] then Some(NoAllowedIps(from))
    else IncompletePeer(peers, from + 1)
  }

  function Incomplete(st: State): Option<Problem> {
    if !st.interfaceSeen then Some(NoInterface)
    else if st.profile.peers == [] then Some(NoPeer)
    else if st.profile.interface.privateKey.None? then Some(NoPrivateKey)
    else if IncompletePeer(st.profile.peers, 0).Some? then IncompletePeer(st.profile.peers, 0)
    else if FullTunnelPeers(st.profile.peers) == 0 then Some(NoFullTunnel)
    else if FullTunnelPeers(st.profile.peers) > 1 then Some(AmbiguousTunnel)
    else None
  }

  function Parse(codec: Codec, source: string): Result<Profile, ProfileError> {
    if ByteLen(source) > MAX_PROFILE_BYTES then Err(General(TooLarge))
    else
      var st := Fold(codec, START, Split(source, '\n'), 1);
      if st.Err? then Err(st.error)
      else
        var problem := Incomplete(st.value);
        if problem.Some? then Err(General(problem.value)) else Ok(st.value.profile)
  }

  method ParseProfile(codec: Codec, source: string) returns (r: Result<Profile, ProfileError>)
    ensures r == Parse(codec, source)
  {
    if ByteLen(source) > MAX_PROFILE_BYTES { return Err(General(TooLarge)); }
    var lines, st := Split(source, '\n'), START;
    for n := 0 to |lines|
      invariant st.Valid() && Fold(codec, START, lines, 1) == Fold(codec, st, lines[n..], n + 1)
    {
      assert lines[n..][1..] == lines[n + 1..];
      var next := StepLine(codec, st, lines[n], n + 1);
      if next.Err? { return Err(next.error); }
      st := next.value;
    }
    assert lines[|lines|..] == [];
    if !st.interfaceSeen { return Err(General(NoInterface)); }
    if st.profile.peers == [] { return Err(General(NoPeer)); }
    if st.profile.interface.privateKey.None? { return Err(General(NoPrivateKey)); }
    var peers := st.profile.peers;
    for n := 0 to |peers|
      invariant IncompletePeer(peers, 0) == IncompletePeer(peers, n)
    {
      if peers[n].publicKey == "" { return Err(General(NoPublicKey(n))); }
      if peers[n].allowedIps == [] { return Err(General(NoAllowedIps(n))); }
    }
    var full := CountFullTunnels(peers);
    if full == 0 { return Err(General(NoFullTunnel)); }
    if full > 1 { return Err(General(AmbiguousTunnel)); }
    return Ok(st.profile);
  }

  method CountFullTunnels(peers: seq<Peer>) returns (count: nat)
    ensures count == FullTunnelPeers(peers)
  {
    count := 0;
    for n := 0 to |peers|
      invariant count == FullTunnelPeers(peers[..n])
    {
      assert peers[..n + 1][..n] == peers[..n];
      if RoutesAll(peers[n]) { count := count + 1; }
    }
    assert peers[..|peers|] == peers;
  }
}
