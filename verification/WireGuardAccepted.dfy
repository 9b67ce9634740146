/** Which texts the profile parser accepts: what it must find, and what it must not. */
module WireGuardAccepted {
  import opened Basics
  import opened Text
  import opened WireGuardProfile

  // ------------------------------------------------------------------------------- lines

  predicate IsHeading(raw: string) { Content(raw) != "" && Content(raw)[0] == '[' }

  /** The directive a line sets, in lower case, if it is one. */
  function KeyOf(raw: string): Option<string> {
    var content := Content(raw);
    if content == "" || content[0] == '[' then None
    else
      var parts := SplitOnce(content, '=');
      if parts.None? then None else Some(Lower(Trim(parts.value.0)))
  }

  const INTERFACE_KEYS := {"privatekey", "address", "dns", "listenport", "mtu"}
  const PEER_KEYS := {"publickey", "presharedkey", "endpoint", "allowedips", "persistentkeepalive"}

  /** Directives that may appear once in a section. */
  const SINGLE_KEYS :=
    {"privatekey", "listenport", "mtu", "publickey", "presharedkey", "endpoint", "persistentkeepalive"}

  /** A blank line or comment, one of the two headings, or a directive of the profile. */
  predicate IsKnown(raw: string) {
    || Content(raw) == ""
    || (IsHeading(raw) && (Lower(Content(raw)) == "[interface]" || Lower(Content(raw)) == "[peer]"))
    || (KeyOf(raw).Some? && (KeyOf(raw).value in INTERFACE_KEYS || KeyOf(raw).value in PEER_KEYS))
  }

  lemma InterfaceKeys(name: string)
    ensures InterfaceField(name) != Unknown <==> name in INTERFACE_KEYS
  {
  }

  lemma PeerKeys(name: string)
    ensures PeerField(name) != Unknown <==> name in PEER_KEYS
  {
  }

  lemma StepIsKnown(codec: Codec, st: State, raw: string, line: nat)
    requires st.Valid() && StepLine(codec, st, raw, line).Ok?
    ensures IsKnown(raw)
    ensures KeyOf(raw).Some? ==>
              && (st.section.InInterface? ==> KeyOf(raw).value in INTERFACE_KEYS)
              && (st.section.InPeer? ==> KeyOf(raw).value in PEER_KEYS)
              && !st.section.Outside?
  {
    if KeyOf(raw).Some? {
      InterfaceKeys(KeyOf(raw).value);
      PeerKeys(KeyOf(raw).value);
    }
  }

  lemma {:induction false} FoldIsKnown(codec: Codec, st: State, lines: seq<string>, line: nat, i: nat)
    requires st.Valid() && Fold(codec, st, lines, line).Ok? && i < |lines|
    ensures IsKnown(lines[i])
    decreases |lines|
  {
    StepIsKnown(codec, st, lines[0], line);
    if i > 0 { FoldIsKnown(codec, StepLine(codec, st, lines[0], line).value, lines[1..], line + 1, i - 1); }
  }

  /**
   A text with a line that is none of these does not parse; so no privileged hook, `SaveConfig` or
   `Table` ever gets through, in whatever case and section.
   */
  lemma ForeignLineFails(codec: Codec, source: string, i: nat)
    requires i < |Split(source, '\n')| && !IsKnown(Split(source, '\n')[i])
    ensures Parse(codec, source).Err?
  {
    if Parse(codec, source).Ok? { FoldIsKnown(codec, START, Split(source, '\n'), 1, i); }
  }

  lemma HooksAreForeign(raw: string)
    requires KeyOf(raw).Some?
    requires KeyOf(raw).value in {"table", "saveconfig", "preup", "postup", "predown", "postdown"}
    ensures !IsKnown(raw)
  {
    assert KeyOf(raw).value !in INTERFACE_KEYS && KeyOf(raw).value !in PEER_KEYS;
  }

  /** In a section such a line is refused for what it is, whatever its value. */
  lemma HooksAreRefused(codec: Codec, st: State, raw: string, line: nat)
    requires st.Valid() && !st.section.Outside? && KeyOf(raw).Some?
    ensures KeyOf(raw).value == "table" ==>
              StepLine(codec, st, raw, line) == Err(At("Interface.Table", line, TableIsOwned))
    ensures KeyOf(raw).value in {"saveconfig", "preup", "postup", "predown", "postdown"} ==>
              StepLine(codec, st, raw, line).Err? && StepLine(codec, st, raw, line).error.problem == HookProhibited
  {
  }

  // ----------------------------------------------------------------------------- repeats

  /** The directive has been set in the current section. */
  predicate IsSet(st: State, key: string)
    requires st.Valid()
  {
    match st.section
    case Outside => false
    case InInterface =>
      var i := st.profile.interface;
      || (key == "privatekey" && i.privateKey.Some?) || (key == "listenport" && i.listenPort.Some?)
      || (key == "mtu" && i.mtu.Some?)
    case InPeer(n) =>
      var p := st.profile.peers[n];
      || (key == "publickey" && p.publicKey != "") || (key == "presharedkey" && p.presharedKey.Some?)
      || (key == "endpoint" && p.endpoint.Some?) || (key == "persistentkeepalive" && p.keepalive.Some?)
  }

  lemma InterfaceSets(codec: Codec, i: Interface, key: string, value: string, next: Interface)
    requires SetInterface(codec, i, InterfaceField(key), value) == Ok(next)
    ensures key == "privatekey" ==> i.privateKey.None? && next.privateKey.Some?
    ensures key == "listenport" ==> i.listenPort.None? && next.listenPort.Some?
    ensures key == "mtu" ==> i.mtu.None? && next.mtu.Some?
    ensures (i.privateKey.Some? ==> next.privateKey.Some?) && (i.listenPort.Some? ==> next.listenPort.Some?)
            && (i.mtu.Some? ==> next.mtu.Some?)
  {
  }

  lemma PeerSets(codec: Codec, p: Peer, key: string, value: string, next: Peer)
    requires SetPeer(codec, p, PeerField(key), value) == Ok(next)
    ensures key == "publickey" ==> p.publicKey == "" && next.publicKey != ""
    ensures key == "presharedkey" ==> p.presharedKey.None? && next.presharedKey.Some?
    ensures key == "endpoint" ==> p.endpoint.None? && next.endpoint.Some?
    ensures key == "persistentkeepalive" ==> p.keepalive.None? && next.keepalive.Some?
    ensures (p.publicKey != "" ==> next.publicKey != "") && (p.presharedKey.Some? ==> next.presharedKey.Some?)
            && (p.endpoint.Some? ==> next.endpoint.Some?) && (p.keepalive.Some? ==> next.keepalive.Some?)
  {
  }

  lemma DirectiveSets(codec: Codec, st: State, key: string, value: string, line: nat, next: State, name: string)
    requires st.Valid() && StepDirective(codec, st, key, value, line) == Ok(next)
    ensures next.Valid() && (IsSet(st, name) ==> IsSet(next, name))
    ensures name == Lower(key) && name in SINGLE_KEYS ==> !IsSet(st, name) && IsSet(next, name)
  {
    InterfaceKeys(Lower(key));
    PeerKeys(Lower(key));
    match st.section
    case Outside =>
    case InInterface => InterfaceSets(codec, st.profile.interface, Lower(key), value, next.profile.interface);
    case InPeer(n) => PeerSets(codec, st.profile.peers[n], Lower(key), value, next.profile.peers[n]);
  }

  lemma StepSets(codec: Codec, st: State, raw: string, line: nat, next: State, name: string)
    requires st.Valid() && StepLine(codec, st, raw, line) == Ok(next) && !IsHeading(raw)
    ensures next.Valid() && (IsSet(st, name) ==> IsSet(next, name))
    ensures KeyOf(raw) == Some(name) && name in SINGLE_KEYS ==> !IsSet(st, name) && IsSet(next, name)
  {
    var content := Content(raw);
    if content != "" {
      var parts := SplitOnce(content, '=').value;
      DirectiveSets(codec, st, Trim(parts.0), Trim(parts.1), line, next, name);
    }
  }

  lemma {:induction false} SetAgainFails(codec: Codec, st: State, lines: seq<string>, line: nat, j: nat, name: string)
    requires st.Valid() && IsSet(st, name) && name in SINGLE_KEYS
    requires j < |lines| && KeyOf(lines[j]) == Some(name) && forall l | 0 <= l < j :: !IsHeading(lines[l])
    ensures Fold(codec, st, lines, line).Err?
    decreases |lines|
  {
    var next := StepLine(codec, st, lines[0], line);
    if next.Ok? {
      StepSets(codec, st, lines[0], line, next.value, name);
      SetAgainFails(codec, next.value, lines[1..], line + 1, j - 1, name);
    }
  }

  /** Lines `i` and `j` set the same directive with no heading between them. */
  predicate Repeats(lines: seq<string>, i: nat, j: nat, name: string) {
    && i < j < |lines| && KeyOf(lines[i]) == Some(name) && KeyOf(lines[j]) == Some(name)
    && forall l | i < l < j :: !IsHeading(lines[l])
  }

  lemma RepeatsLater(lines: seq<string>, i: nat, j: nat, name: string)
    requires Repeats(lines, i, j, name)
    ensures Repeats(lines[i..], 0, j - i, name)
  {
  }

  lemma FirstSetsThenFails(codec: Codec, st: State, lines: seq<string>, line: nat, j: nat, name: string)
    requires st.Valid() && name in SINGLE_KEYS && Repeats(lines, 0, j, name)
    ensures Fold(codec, st, lines, line).Err?
  {
    var next := StepLine(codec, st, lines[0], line);
    if next.Ok? {
      StepSets(codec, st, lines[0], line, next.value, name);
      assert forall l | 0 <= l < j - 1 :: lines[1..][l] == lines[l + 1];
      SetAgainFails(codec, next.value, lines[1..], line + 1, j - 1, name);
    }
  }

  /** Whatever has been read before, these lines are not. */
  ghost predicate Fails(codec: Codec, lines: seq<string>, line: nat) {
    forall st: State | st.Valid() :: Fold(codec, st, lines, line).Err?
  }

  lemma {:induction false} FailsLater(codec: Codec, st: State, lines: seq<string>, line: nat, i: nat)
    requires st.Valid() && i <= |lines| && Fails(codec, lines[i..], line + i)
    ensures Fold(codec, st, lines, line).Err?
    decreases i
  {
    if i == 0 {
      assert lines[0..] == lines;
    } else {
      assert lines[1..][i - 1..] == lines[i..];
      var next := StepLine(codec, st, lines[0], line);
      if next.Ok? { FailsLater(codec, next.value, lines[1..], line + 1, i - 1); }
    }
  }

  lemma RepeatFails(codec: Codec, lines: seq<string>, line: nat, j: nat, name: string)
    requires name in SINGLE_KEYS && Repeats(lines, 0, j, name)
    ensures Fails(codec, lines, line)
  {
    forall st: State | st.Valid() ensures Fold(codec, st, lines, line).Err? {
      FirstSetsThenFails(codec, st, lines, line, j, name);
    }
  }

  /** A text that sets a single-valued directive twice in one section does not parse, whatever the values. */
  lemma RepeatedDirectiveFails(codec: Codec, source: string, i: nat, j: nat, name: string)
    requires Repeats(Split(source, '\n'), i, j, name) && name in SINGLE_KEYS
    ensures Parse(codec, source).Err?
  {
    RepeatsLater(Split(source, '\n'), i, j, name);
    RepeatFails(codec, Split(source, '\n')[i..], 1 + i, j - i, name);
    FailsLater(codec, START, Split(source, '\n'), 1, i);
  }

  // ---------------------------------------------------------------------------- sections

  /** How many lines are this heading, in any case. */
  function Headings(lines: seq<string>, heading: string): nat {
    if lines == [] then 0
    else (if Heads(lines[0], heading) then 1 else 0) + Headings(lines[1..], heading)
  }

  function Seen(st: State): nat { if st.interfaceSeen then 1 else 0 }

  predicate Heads(raw: string, heading: string) { IsHeading(raw) && Lower(Content(raw)) == heading }

  lemma StepCountsHeadings(codec: Codec, st: State, raw: string, line: nat, next: State)
    requires st.Valid() && StepLine(codec, st, raw, line) == Ok(next)
    ensures |next.profile.peers| == |st.profile.peers| + if Heads(raw, "[peer]") then 1 else 0
    ensures Seen(next) == Seen(st) + if Heads(raw, "[interface]") then 1 else 0
  {
    assert "[peer]"[1] != "[interface]"[1];
  }

  lemma {:induction false} FoldCountsHeadings(codec: Codec, st: State, lines: seq<string>, line: nat, end: State)
    requires st.Valid() && Fold(codec, st, lines, line) == Ok(end)
    ensures |end.profile.peers| == |st.profile.peers| + Headings(lines, "[peer]")
    ensures Seen(end) == Seen(st) + Headings(lines, "[interface]")
    decreases |lines|
  {
    if lines != [] {
      var next := StepLine(codec, st, lines[0], line).value;
      StepCountsHeadings(codec, st, lines[0], line, next);
      FoldCountsHeadings(codec, next, lines[1..], line + 1, end);
    }
  }

  /** A text that parses has exactly one interface section, and one peer section for each peer. */
  lemma SectionsMakeTheProfile(codec: Codec, source: string)
    requires Parse(codec, source).Ok?
    ensures Headings(Split(source, '\n'), "[interface]") == 1
    ensures Headings(Split(source, '\n'), "[peer]") == |Parse(codec, source).value.peers|
  {
    var end := Fold(codec, START, Split(source, '\n'), 1).value;
    FoldCountsHeadings(codec, START, Split(source, '\n'), 1, end);
  }
}
