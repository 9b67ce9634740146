/** The label values of src/isolation.rs: MAC addresses, isolation identities, allow and accept lists. */
module Labels {
  import opened Basics
  import opened Text
  import opened Addresses
  import opened IsolationRules

  // ---------------------------------------------------------------------- MAC addresses

  predicate IsHex(c: char) { IsDigit(c) || 'a' <= c <= 'f' || 'A' <= c <= 'F' }

  function HexValue(c: char): (n: nat)
    requires IsHex(c)
    ensures n < 16
  {
    if IsDigit(c) then DigitValue(c) else if c <= 'F' then c as int - 'A' as int + 10 else c as int - 'a' as int + 10
  }

  function HexChar(n: nat): char
    requires n < 16
  {
    if n < 10 then DigitChar(n) else 'a' + (n - 10) as char
  }

  function Octet(text: string): (o: Option<nat>)
    ensures o.Some? ==> o.value < 256
  {
    if |text| == 2 && IsHex(text[0]) && IsHex(text[1])
    then Some(16 * HexValue(text[0]) + HexValue(text[1])) else None
  }

  function HexPair(n: nat): string
    requires n < 256
  {
    [HexChar(n / 16), HexChar(n % 16)]
  }

  predicate IsOctets(octets: seq<nat>) { |octets| == 6 && forall i | 0 <= i < 6 :: octets[i] < 256 }

  function Octets(raw: string): (r: Option<seq<nat>>)
    ensures r.Some? ==> IsOctets(r.value)
  {
    var parts := Split(raw, ':');
    if |parts| == 6 && forall p <- parts :: Octet(p).Some?
    then Some(seq(6, i requires 0 <= i < 6 => Octet(parts[i]).value)) else None
  }

  function Pairs(octets: seq<nat>): seq<string>
    requires IsOctets(octets)
  {
    seq(6, i requires 0 <= i < 6 => HexPair(octets[i]))
  }

  function MacText(octets: seq<nat>): Mac
    requires IsOctets(octets)
  {
    Join(Pairs(octets), ":")
  }

  predicate Unicast(octets: seq<nat>)
    requires IsOctets(octets)
  {
    octets[0] % 2 == 0 && exists o <- octets :: o != 0
  }

  function NormalizeMac(raw: string): Option<Mac> {
    var octets := Octets(raw);
    if octets.Some? && Unicast(octets.value) then Some(MacText(octets.value)) else None
  }

  lemma OctetOfPair(n: nat)
    requires n < 256
    ensures Octet(HexPair(n)) == Some(n) && ':' !in HexPair(n)
  {
    assert n / 16 < 16 && n % 16 < 16;
    HexOfChar(n / 16);
    HexOfChar(n % 16);
  }

  lemma HexOfChar(n: nat)
    requires n < 16
    ensures IsHex(HexChar(n)) && HexValue(HexChar(n)) == n && HexChar(n) != ':'
  {
  }

  /** The canonical text reads back as the octets it was written from. */
  lemma OctetsOfMacText(octets: seq<nat>)
    requires IsOctets(octets)
    ensures Octets(MacText(octets)) == Some(octets)
  {
    forall i | 0 <= i < 6 ensures Octet(Pairs(octets)[i]) == Some(octets[i]) && ':' !in Pairs(octets)[i] {
      OctetOfPair(octets[i]);
    }
    SplitJoin(Pairs(octets), ':');
    assert forall p <- Pairs(octets) :: Octet(p).Some?;
    assert Octets(MacText(octets)).value == octets;
  }

  /** Two spellings normalise alike exactly when they spell the same octets; normal forms are fixed points. */
  lemma NormalFormsIdentify(a: string, b: string)
    requires NormalizeMac(a).Some? && NormalizeMac(b).Some?
    ensures NormalizeMac(a) == NormalizeMac(b) <==> Octets(a) == Octets(b)
    ensures NormalizeMac(NormalizeMac(a).value) == NormalizeMac(a)
  {
    OctetsOfMacText(Octets(a).value);
    OctetsOfMacText(Octets(b).value);
  }

  // ------------------------------------------------------------------------- identities

  predicate ValidIdentity(value: string) {
    && value != [] && |value| <= 64
    && (IsLower(value[0]) || IsDigit(value[0]))
    && forall c <- value :: IsLower(c) || IsDigit(c) || c == '-' || c == '_' || c == '.'
  }

  // ------------------------------------------------------------------------ allow lists

  datatype AllowSpec = AllowSpec(destinationId: string, port: nat, protocol: Protocol)

  datatype AllowError =
    | InvalidAllowance(entry: string)
    | InvalidDestination(id: string)
    | InvalidPort(entry: string)
    | InvalidProtocol(entry: string)

  function ParseEntry(entry: string): Result<AllowSpec, AllowError> {
    var named := SplitOnce(entry, ':');
    if named.None? then Err(InvalidAllowance(entry))
    else
      var service := SplitOnce(named.value.1, '/');
      if service.None? then Err(InvalidAllowance(entry))
      else if !ValidIdentity(named.value.0) then Err(InvalidDestination(named.value.0))
      else
        var port := ParseUnsigned(service.value.0, U16_MAX);
        if port.None? || port.value == 0 then Err(InvalidPort(entry))
        else if service.value.1 == "tcp" then Ok(AllowSpec(named.value.0, port.value, Tcp))
        else if service.value.1 == "udp" then Ok(AllowSpec(named.value.0, port.value, Udp))
        else Err(InvalidProtocol(entry))
  }

  /** Entries parse in order; the first bad one is the result. */
  function ParseEntries(entries: seq<string>): Result<seq<AllowSpec>, AllowError> {
    if entries == [] then Ok([])
    else
      var first := ParseEntry(Trim(entries[0]));
      if first.Err? then Err(first.error)
      else
        var rest := ParseEntries(entries[1..]);
        if rest.Err? then rest else Ok([first.value] + rest.value)
  }

  function ParseAllowList(raw: string): Result<seq<AllowSpec>, AllowError> {
    if Trim(raw) == "" then Ok([]) else ParseEntries(Split(raw, ','))
  }

  predicate ValidSpec(spec: AllowSpec) { ValidIdentity(spec.destinationId) && 0 < spec.port <= U16_MAX }

  function SpecText(spec: AllowSpec): string {
    spec.destinationId + ":" + (Decimal(spec.port) + "/" + ProtocolName(spec.protocol))
  }

  function SpecTexts(specs: seq<AllowSpec>): seq<string> {
    seq(|specs|, i requires 0 <= i < |specs| => SpecText(specs[i]))
  }

  function ProtocolName(protocol: Protocol): string { if protocol == Tcp then "tcp" else "udp" }

  lemma SpecTextIsClean(spec: AllowSpec)
    requires ValidSpec(spec)
    ensures IsTrimmed(SpecText(spec)) && ',' !in SpecText(spec) && SpecText(spec) != ""
  {
    DecimalValue(spec.port);
    assert SpecText(spec)[0] == spec.destinationId[0];
    assert SpecText(spec)[|SpecText(spec)| - 1] == 'p';
  }

  lemma ServiceSplits(spec: AllowSpec)
    requires ValidSpec(spec)
    ensures SplitOnce(Decimal(spec.port) + "/" + ProtocolName(spec.protocol), '/')
            == Some((Decimal(spec.port), ProtocolName(spec.protocol)))
    ensures ParseUnsigned(Decimal(spec.port), U16_MAX) == Some(spec.port)
  {
    DecimalValue(spec.port);
    ParseDecimal(spec.port, U16_MAX);
    SplitOnceAt(Decimal(spec.port), '/', ProtocolName(spec.protocol));
  }

  lemma SpecTextParses(spec: AllowSpec)
    requires ValidSpec(spec)
    ensures ParseEntry(SpecText(spec)) == Ok(spec)
  {
    ServiceSplits(spec);
    SplitOnceAt(spec.destinationId, ':', Decimal(spec.port) + "/" + ProtocolName(spec.protocol));
  }

  lemma TrimmedSpecParses(spec: AllowSpec)
    requires ValidSpec(spec)
    ensures ParseEntry(Trim(SpecText(spec))) == Ok(spec) && Trim(SpecText(spec)) != ""
  {
    SpecTextParses(spec);
    SpecTextIsClean(spec);
    TrimOfTrimmed(SpecText(spec));
  }

  lemma {:induction false} SpecTextsParse(specs: seq<AllowSpec>)
    requires forall s <- specs :: ValidSpec(s)
    ensures ParseEntries(SpecTexts(specs)) == Ok(specs)
  {
    if specs != [] {
      TrimmedSpecParses(specs[0]);
      SpecTextsParse(specs[1..]);
      assert SpecTexts(specs)[1..] == SpecTexts(specs[1..]);
      assert specs == [specs[0]] + specs[1..];
    }
  }

  /** Every list of well-formed allowances has a label that parses to exactly that list. */
  lemma AllowListRoundTrip(specs: seq<AllowSpec>)
    requires forall s <- specs :: ValidSpec(s)
    ensures ParseAllowList(Join(SpecTexts(specs), ",")) == Ok(specs)
  {
    if specs != [] {
      var texts := SpecTexts(specs);
      forall t <- texts ensures ',' !in t {
        var i :| 0 <= i < |texts| && t == texts[i];
        SpecTextIsClean(specs[i]);
      }
      SplitJoin(texts, ',');
      SpecTextsParse(specs);
      SpecTextIsClean(specs[0]);
      assert texts[0] <= Join(texts, ",");
      StartsTrimmed(Join(texts, ","));
    }
  }

  lemma StartsTrimmed(s: string)
    requires s != [] && !IsWhitespace(s[0])
    ensures Trim(s) != ""
  {
    TrimEndIsPrefix(s);
    TrimEndKeepsFirst(s);
  }

  lemma {:induction false} TrimEndKeepsFirst(s: string)
    requires s != [] && !IsWhitespace(s[0])
    ensures TrimEnd(s) != []
  {
    if IsWhitespace(s[|s| - 1]) { TrimEndKeepsFirst(s[..|s| - 1]); }
  }

  /** What parses is well formed. */
  lemma {:induction false} ParsedEntriesAreValid(entries: seq<string>)
    ensures ParseEntries(entries).Ok? ==> forall s <- ParseEntries(entries).value :: ValidSpec(s)
  {
    if entries != [] { ParsedEntriesAreValid(entries[1..]); }
  }

  lemma NameHasNoColon(id: string)
    requires ValidIdentity(id)
    ensures ':' !in id
  {
  }

  lemma PortHasNoSlash(digits: string)
    requires ParseUnsigned(digits, U16_MAX).Some?
    ensures '/' !in digits
  {
    var bare := if digits != [] && digits[0] == '+' then digits[1..] else digits;
    assert forall c <- bare :: IsDigit(c);
    forall i | 0 <= i < |digits| ensures digits[i] != '/' {
      assert (digits[0] == '+' && i == 0) || digits[i] in bare;
    }
  }

  lemma ServiceSplitsAt(digits: string, protocol: Protocol)
    requires '/' !in digits
    ensures SplitOnce(digits + "/" + ProtocolName(protocol), '/') == Some((digits, ProtocolName(protocol)))
  {
    SplitOnceAt(digits, '/', ProtocolName(protocol));
  }

  /** An entry parses exactly if it reads identity, colon, port, slash, protocol; and then to just those. */
  lemma EntryParsesIff(entry: string, spec: AllowSpec)
    ensures ParseEntry(entry) == Ok(spec) <==>
            && ValidIdentity(spec.destinationId) && spec.port > 0
            && exists digits ::
                 && entry == spec.destinationId + ":" + (digits + "/" + ProtocolName(spec.protocol))
                 && ParseUnsigned(digits, U16_MAX) == Some(spec.port)
  {
    if ParseEntry(entry) == Ok(spec) {
      SplitOnceRebuilds(entry, ':');
      var service := SplitOnce(entry, ':').value.1;
      SplitOnceRebuilds(service, '/');
      var digits := SplitOnce(service, '/').value.0;
      assert service == digits + "/" + ProtocolName(spec.protocol);
      assert entry == spec.destinationId + ":" + (digits + "/" + ProtocolName(spec.protocol));
    }
    if ValidIdentity(spec.destinationId) && spec.port > 0 {
      NameHasNoColon(spec.destinationId);
      forall digits | && entry == spec.destinationId + ":" + (digits + "/" + ProtocolName(spec.protocol))
                      && ParseUnsigned(digits, U16_MAX) == Some(spec.port)
        ensures ParseEntry(entry) == Ok(spec)
      {
        PortHasNoSlash(digits);
        SplitOnceAt(spec.destinationId, ':', digits + "/" + ProtocolName(spec.protocol));
        ServiceSplitsAt(digits, spec.protocol);
      }
    }
  }

  /** A list parses exactly if each of its entries does, and then to their results in order. */
  lemma {:induction false} EntriesParseIff(entries: seq<string>, specs: seq<AllowSpec>)
    ensures ParseEntries(entries) == Ok(specs) <==>
            |specs| == |entries| && forall i | 0 <= i < |entries| :: ParseEntry(Trim(entries[i])) == Ok(specs[i])
  {
    if entries != [] && specs != [] {
      EntriesParseIff(entries[1..], specs[1..]);
      assert specs == [specs[0]] + specs[1..];
      if ParseEntries(entries) == Ok(specs) { assert specs[1..] == ParseEntries(entries[1..]).value; }
    }
  }

  // ----------------------------------------------------------------------- accept lists

  function AcceptEntries(accept: Option<string>): set<string> {
    if accept.None? then {} else set e | e in Split(accept.value, ',') && Trim(e) != "" :: Trim(e)
  }

  /** Every list of identities has a label that accepts exactly those. */
  lemma AcceptListRoundTrip(ids: seq<string>)
    requires forall id <- ids :: ValidIdentity(id)
    ensures AcceptEntries(Some(Join(ids, ","))) == set id | id in ids
  {
    forall id <- ids ensures ',' !in id && Trim(id) == id {
      assert id[0] in id && id[|id| - 1] in id;
      TrimOfTrimmed(id);
    }
    if ids == [] {
      assert Split("", ',') == [""];
    } else {
      SplitJoin(ids, ',');
    }
  }
}
