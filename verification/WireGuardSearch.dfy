/** The rendered text as lines, and where a search for the table line finds it. */
module WireGuardSearch {
  import opened Basics
  import opened Text
  import opened WireGuardProfile
  import opened WireGuardRender
  import opened WireGuardParsed
  import opened WireGuardReading
  import opened WireGuardLines

  // ---------------------------------------------------------------------- lines of text

  predicate FreeLines(lines: seq<string>) { forall i | 0 <= i < |lines| :: '\n' !in lines[i] }

  lemma UnlinesFront(line: string, rest: seq<string>)
    ensures Unlines([line] + rest) == line + "\n" + Unlines(rest)
  {
    UnlinesConcat([line], rest);
    UnlinesOne(line);
  }

  lemma {:induction false} SplitUnlines(lines: seq<string>)
    requires FreeLines(lines)
    ensures Split(Unlines(lines), '\n') == lines + [""]
  {
    if lines != [] {
      SplitUnlines(lines[1..]);
      UnlinesFront(lines[0], lines[1..]);
      assert lines == [lines[0]] + lines[1..];
      SplitFirst(lines[0], '\n', Unlines(lines[1..]));
    }
  }

  lemma OptionalIsFree(name: string, value: Option<string>)
    requires '\n' !in name && (value.Some? ==> '\n' !in value.value)
    ensures FreeLines(Optional(name, value))
  {
  }

  lemma HeadIsFree(codec: Codec, i: Interface)
    requires GoodInterface(codec, i)
    ensures FreeLines(HeadLines(codec, i))
  {
    OptionalIsFree("PrivateKey", i.privateKey);
    if i.addresses != [] { NetsRead(codec, i.addresses); }
    OptionalIsFree("Address", Listed(NetTexts(codec, i.addresses)));
  }

  lemma TailIsFree(codec: Codec, i: Interface)
    requires GoodInterface(codec, i)
    ensures FreeLines(TailLines(i)) && FreeLines(DnsLines(codec, i))
  {
    if i.listenPort.Some? { DecimalIsClean(i.listenPort.value); }
    if i.mtu.Some? { DecimalIsClean(i.mtu.value); }
    if i.dns != [] { AddrsRead(codec, i.dns); }
    OptionalIsFree("ListenPort", Number(i.listenPort));
    OptionalIsFree("MTU", Number(i.mtu));
    OptionalIsFree("DNS", Listed(AddrTexts(codec, i.dns)));
  }

  lemma PeerIsFree(codec: Codec, p: Peer)
    requires GoodPeer(codec, p) && p.publicKey != "" && p.allowedIps != []
    ensures FreeLines(PeerLines(codec, p))
  {
    OptionalIsFree("PublicKey", Some(p.publicKey));
    OptionalIsFree("PresharedKey", p.presharedKey);
    if p.endpoint.Some? { EndpointIsPlain(codec, p.endpoint.value); }
    OptionalIsFree("Endpoint", EndpointValue(p.endpoint));
    NetsRead(codec, p.allowedIps);
    OptionalIsFree("AllowedIPs", Some(Join(NetTexts(codec, p.allowedIps), ", ")));
    if p.keepalive.Some? { DecimalIsClean(p.keepalive.value); }
    OptionalIsFree("PersistentKeepalive", Number(p.keepalive));
    PeerLinesGroup(codec, p);
    GroupIsFree(Optional("PublicKey", Some(p.publicKey)), Optional("PresharedKey", p.presharedKey),
                Optional("Endpoint", EndpointValue(p.endpoint)),
                Optional("AllowedIPs", Some(Join(NetTexts(codec, p.allowedIps), ", "))),
                Optional("PersistentKeepalive", Number(p.keepalive)));
  }

  lemma GroupIsFree(a: seq<string>, b: seq<string>, c: seq<string>, d: seq<string>, e: seq<string>)
    requires FreeLines(a) && FreeLines(b) && FreeLines(c) && FreeLines(d) && FreeLines(e)
    ensures FreeLines(["", "[Peer]"] + (a + b) + c + (d + e))
  {
    FreeConcat(a, b);
    FreeConcat(d, e);
    FreeConcat(["", "[Peer]"], a + b);
    FreeConcat(["", "[Peer]"] + (a + b), c);
    FreeConcat(["", "[Peer]"] + (a + b) + c, d + e);
  }

  lemma FreeConcat(a: seq<string>, b: seq<string>)
    requires FreeLines(a) && FreeLines(b)
    ensures FreeLines(a + b)
  {
  }

  lemma {:induction false} PeersAreFree(codec: Codec, peers: seq<Peer>)
    requires CompletePeers(codec, peers)
    ensures FreeLines(PeersLines(codec, peers))
  {
    if peers != [] {
      PeersAreFree(codec, peers[..|peers| - 1]);
      PeerIsFree(codec, peers[|peers| - 1]);
    }
  }

  // ------------------------------------------------------------- finding the table line

  function Shifted(at: Option<nat>, distance: nat): Option<nat> { if at.None? then None else Some(at.value + distance) }

  /** A line that begins with a whole needle is the needle's own line. */
  lemma LinesAgree(table: string, line: string, rest: string)
    requires '\n' !in table && '\n' !in line && table + ['\n'] <= line + ['\n'] + rest
    ensures line == table
  {
    var needle, text := table + ['\n'], line + ['\n'] + rest;
    assert forall i | 0 <= i < |needle| :: needle[i] == text[i];
    assert needle[|table|] == '\n' && text[|line|] == '\n';
    assert forall i | 0 <= i < |table| && i < |line| :: table[i] == line[i] by {
      assert forall i | 0 <= i < |table| && i < |line| :: needle[i] == table[i] && text[i] == line[i];
    }
  }

  lemma NotAtStart(table: string, line: string, rest: string)
    requires '\n' !in table && '\n' !in line && line != table
    ensures !(table + ['\n'] <= line + ['\n'] + rest)
  {
    if table + ['\n'] <= line + ['\n'] + rest {
      LinesAgree(table, line, rest);
      assert false;
    }
  }

  /** No needle starts in a line that does not end with it: its only line break is its last character. */
  lemma {:induction false} SkipLine(table: string, line: string, rest: string)
    requires '\n' !in table && table != "" && '\n' !in line && !EndsWith(line, table)
    ensures Find(line + ['\n'] + rest, table + ['\n']) == Shifted(Find(rest, table + ['\n']), |line| + 1)
  {
    var text := line + ['\n'] + rest;
    assert line != table by { assert line[0..] == line; }
    NotAtStart(table, line, rest);
    if line == [] {
      assert text[1..] == rest;
    } else {
      assert text[1..] == line[1..] + ['\n'] + rest;
      TailEndsSo(table, line);
      SkipLine(table, line[1..], rest);
    }
  }

  lemma TailEndsSo(table: string, line: string)
    requires line != [] && !EndsWith(line, table)
    ensures !EndsWith(line[1..], table)
  {
    if |table| < |line| { assert line[1..][|line| - 1 - |table|..] == line[|line| - |table|..]; }
  }

  lemma {:induction false} HitLine(table: string, before: string, rest: string)
    requires '\n' !in table && '\n' !in before
    ensures Find(before + (table + ['\n'] + rest), table + ['\n']) == Some(|before|)
  {
    var text := before + (table + ['\n'] + rest);
    if before == [] {
      assert text == table + ['\n'] + rest;
    } else {
      assert text == before + table + ['\n'] + rest;
      NotAtStart(table, before + table, rest);
      assert text[1..] == before[1..] + (table + ['\n'] + rest);
      HitLine(table, before[1..], rest);
    }
  }

  predicate NoneEndsSo(table: string, lines: seq<string>) { forall i | 0 <= i < |lines| :: !EndsWith(lines[i], table) }

  lemma {:induction false} FindAfterLines(table: string, lines: seq<string>, rest: string)
    requires '\n' !in table && table != "" && FreeLines(lines) && NoneEndsSo(table, lines)
    ensures FindAfter(table, lines, rest) == Shifted(FindAfter(table, [], rest), |Unlines(lines)|)
  {
    if lines != [] {
      FindAfterLines(table, lines[1..], rest);
      FindPastFront(table, lines, rest);
    }
  }

  /** Where the needle is first found in the lines followed by the rest. */
  function FindAfter(table: string, lines: seq<string>, rest: string): Option<nat> {
    Find(Unlines(lines) + rest, table + ['\n'])
  }

  lemma FindPastFront(table: string, lines: seq<string>, rest: string)
    requires '\n' !in table && table != "" && lines != [] && '\n' !in lines[0] && !EndsWith(lines[0], table)
    ensures FindAfter(table, lines, rest) == Shifted(FindAfter(table, lines[1..], rest), |lines[0]| + 1)
    ensures |Unlines(lines)| == |lines[0]| + 1 + |Unlines(lines[1..])|
  {
    var after := Unlines(lines[1..]) + rest;
    SkipLine(table, lines[0], after);
    FrontLine(lines, rest);
  }

  lemma FrontLine(lines: seq<string>, rest: string)
    requires lines != []
    ensures Unlines(lines) + rest == lines[0] + ['\n'] + (Unlines(lines[1..]) + rest)
    ensures |Unlines(lines)| == |lines[0]| + 1 + |Unlines(lines[1..])|
  {
    assert lines == [lines[0]] + lines[1..];
    UnlinesFront(lines[0], lines[1..]);
    Reassociate(lines[0] + ['\n'], Unlines(lines[1..]), rest);
  }

  lemma Reassociate(a: string, b: string, c: string)
    ensures a + b + c == a + (b + c)
  {
  }

  lemma FindTable(lines: seq<string>, rest: string)
    requires FreeLines(lines) && NoneEndsSo(TABLE, lines)
    ensures Find(Unlines(lines) + (NEEDLE + rest), NEEDLE) == Some(|Unlines(lines)|)
  {
    assert NEEDLE == TABLE + ['\n'];
    HitLine(TABLE, "", rest);
    assert "" + (NEEDLE + rest) == NEEDLE + rest;
    FindAfterLines(TABLE, lines, NEEDLE + rest);
    assert Unlines([]) + (NEEDLE + rest) == NEEDLE + rest;
  }

  lemma RemovedAfterLines(lines: seq<string>, rest: string)
    requires FreeLines(lines) && NoneEndsSo(TABLE, lines)
    ensures Removed(Unlines(lines) + (NEEDLE + rest)) == Unlines(lines) + rest
    ensures forall ins :: Inserted(Unlines(lines) + (NEEDLE + rest), ins) == Unlines(lines) + ins + (NEEDLE + rest)
  {
    FindTable(lines, rest);
    CutAt(Unlines(lines), NEEDLE, rest);
  }

  lemma CutAt(before: string, middle: string, after: string)
    ensures var text := before + (middle + after);
            && text[..|before|] == before && text[|before|..] == middle + after && text[|before| + |middle|..] == after
  {
  }
}
