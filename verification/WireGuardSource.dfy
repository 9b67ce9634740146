/** What `render_source` produces, for every complete profile. */
module WireGuardSource {
  import opened Basics
  import opened Text
  import opened WireGuardProfile
  import opened WireGuardRender
  import opened WireGuardParsed
  import opened WireGuardReading
  import opened WireGuardSearch

  function RestLines(codec: Codec, p: Profile): seq<string> { TailLines(p.interface) + PeersLines(codec, p.peers) }

  function AddressLines(codec: Codec, i: Interface): seq<string> {
    Optional("Address", Listed(NetTexts(codec, i.addresses)))
  }

  lemma RenderIs(codec: Codec, p: Profile)
    ensures Render(codec, p) == Unlines(HeadLines(codec, p.interface)) + (NEEDLE + Unlines(RestLines(codec, p)))
  {
    var head, tail, peers := HeadLines(codec, p.interface), TailLines(p.interface), PeersLines(codec, p.peers);
    Flat(head, TABLE, tail, peers);
    UnlinesConcat(head, [TABLE] + (tail + peers));
    UnlinesFront(TABLE, tail + peers);
  }

  lemma Flat(head: seq<string>, line: string, tail: seq<string>, peers: seq<string>)
    ensures head + [line] + tail + peers == head + ([line] + (tail + peers))
  {
  }

  lemma SourceIs(codec: Codec, p: Profile)
    ensures Unlines(HeadLines(codec, p.interface) + DnsLines(codec, p.interface)) + Unlines(RestLines(codec, p))
            == Unlines(SourceLines(codec, p))
  {
    var head := HeadLines(codec, p.interface) + DnsLines(codec, p.interface);
    UnlinesConcat(head, RestLines(codec, p));
    Associative(head, TailLines(p.interface), PeersLines(codec, p.peers));
  }

  // ------------------------------------------------------- which lines end like the table

  /** A directive whose value has no letter o does not end with the table's text. */
  lemma ValueEndsOtherwise(name: string, value: string)
    requires value != "" && 'o' !in value
    ensures !EndsWith(name + " = " + value, TABLE)
  {
    var line := name + " = " + value;
    assert line[|line| - 3] != 'o' by {
      if |value| >= 3 {
        assert line[|line| - 3] == value[|value| - 3];
      } else if |value| == 2 {
        assert line[|line| - 3] == ' ';
      } else {
        assert line[|line| - 3] == '=';
      }
    }
    assert |line| >= 11 ==> line[|line| - 11..][8] == line[|line| - 3];
  }

  /** The private key's line ends with the table's text exactly when the key does. */
  lemma KeyLineEndsLikeKey(key: string)
    ensures EndsWith(Directive("PrivateKey", key), TABLE) <==> EndsWith(key, TABLE)
  {
    var prefix := "PrivateKey = ";
    var line := Directive("PrivateKey", key);
    assert line == prefix + key;
    if |key| >= 11 {
      assert line[|line| - 11..] == key[|key| - 11..];
    } else {
      assert line[2 + |key|] == prefix[2 + |key|] != 'T';
      assert line[|line| - 11..][0] == line[2 + |key|];
    }
  }

  lemma HeadingEndsOtherwise()
    ensures !EndsWith("[Interface]", TABLE)
  {
    assert "[Interface]"[0] == '[';
  }

  lemma AddressEndsOtherwise(codec: Codec, i: Interface)
    requires GoodInterface(codec, i)
    ensures NoneEndsSo(TABLE, AddressLines(codec, i))
  {
    if i.addresses != [] {
      JoinedIsPlain(NetTexts(codec, i.addresses));
      ValueEndsOtherwise("Address", Join(NetTexts(codec, i.addresses), ", "));
    }
  }

  lemma EndOtherwise(a: string, b: string, rest: seq<string>)
    requires !EndsWith(a, TABLE) && !EndsWith(b, TABLE) && NoneEndsSo(TABLE, rest)
    ensures NoneEndsSo(TABLE, [a, b] + rest)
  {
  }

  lemma HeadEndsOtherwise(codec: Codec, i: Interface)
    requires GoodInterface(codec, i) && i.privateKey.Some? && !EndsWith(i.privateKey.value, TABLE)
    ensures NoneEndsSo(TABLE, HeadLines(codec, i))
  {
    HeadingEndsOtherwise();
    KeyLineEndsLikeKey(i.privateKey.value);
    AddressEndsOtherwise(codec, i);
    assert HeadLines(codec, i) == ["[Interface]", Directive("PrivateKey", i.privateKey.value)] + AddressLines(codec, i);
    EndOtherwise("[Interface]", Directive("PrivateKey", i.privateKey.value), AddressLines(codec, i));
  }

  lemma DnsEndsOtherwise(codec: Codec, i: Interface, before: string)
    requires GoodInterface(codec, i) && i.dns != []
    ensures !EndsWith(before + Directive("DNS", Join(AddrTexts(codec, i.dns), ", ")), TABLE)
  {
    var value := Join(AddrTexts(codec, i.dns), ", ");
    JoinedIsPlain(AddrTexts(codec, i.dns));
    ValueEndsOtherwise(before + "DNS", value);
    assert before + Directive("DNS", value) == before + "DNS" + " = " + value;
  }

  // ------------------------------------------------------------- the table line is found

  /** When the key does not end like the table line, the table line makes way for the DNS line. */
  lemma SourceKeepsLines(codec: Codec, p: Profile)
    requires GoodInterface(codec, p.interface) && p.interface.privateKey.Some?
    requires !EndsWith(p.interface.privateKey.value, TABLE)
    ensures RenderSource(codec, p) == Unlines(SourceLines(codec, p))
  {
    var i := p.interface;
    var head, rest := HeadLines(codec, i), Unlines(RestLines(codec, p));
    RenderIs(codec, p);
    SourceIs(codec, p);
    HeadIsFree(codec, i);
    HeadEndsOtherwise(codec, i);
    RemovedAfterLines(head, rest);
    if i.dns == [] {
      assert head + DnsLines(codec, i) == head;
    } else {
      var line := Directive("DNS", Join(AddrTexts(codec, i.dns), ", "));
      DnsEndsOtherwise(codec, i, "");
      assert "" + line == line;
      TailIsFree(codec, i);
      UnlinesConcat(head, [line]);
      UnlinesOne(line);
      assert DnsLines(codec, i) == [line];
      OneMore(head, line);
      RemovedAfterLines(head + [line], rest);
    }
  }

  lemma OneMore(head: seq<string>, line: string)
    requires FreeLines(head) && NoneEndsSo(TABLE, head) && '\n' !in line && !EndsWith(line, TABLE)
    ensures FreeLines(head + [line]) && NoneEndsSo(TABLE, head + [line])
  {
  }

  // ---------------------------------------------------------- the key line is found first

  /** The text up to where a key ending like the table line is cut. */
  function KeyCut(key: string): string
    requires EndsWith(key, TABLE)
  {
    "PrivateKey = " + key[..|key| - |TABLE|]
  }

  lemma JoinFour(a: string, b: string, c: string, d: string)
    ensures a + (b + c) + d == a + b + (c + d)
  {
  }

  lemma KeyLineIsCut(key: string)
    requires EndsWith(key, TABLE)
    ensures Unlines(["[Interface]"] + [Directive("PrivateKey", key)]) ==
            Unlines(["[Interface]"]) + (KeyCut(key) + NEEDLE)
  {
    var line := Directive("PrivateKey", key);
    UnlinesConcat(["[Interface]"], [line]);
    UnlinesOne(line);
    assert key == key[..|key| - |TABLE|] + TABLE;
    JoinFour("PrivateKey = ", key[..|key| - |TABLE|], TABLE, "\n");
  }

  lemma HeadOfTableKey(codec: Codec, i: Interface)
    requires i.privateKey.Some? && EndsWith(i.privateKey.value, TABLE)
    ensures Unlines(HeadLines(codec, i))
            == Unlines(["[Interface]"]) + (KeyCut(i.privateKey.value) + NEEDLE) + Unlines(AddressLines(codec, i))
  {
    var line, address := Directive("PrivateKey", i.privateKey.value), AddressLines(codec, i);
    assert HeadLines(codec, i) == ["[Interface]"] + [line] + address;
    UnlinesConcat(["[Interface]"] + [line], address);
    KeyLineIsCut(i.privateKey.value);
  }

  lemma RenderOfTableKey(codec: Codec, p: Profile)
    requires p.interface.privateKey.Some? && EndsWith(p.interface.privateKey.value, TABLE)
    ensures var cut := KeyCut(p.interface.privateKey.value);
            var after := Unlines(AddressLines(codec, p.interface)) + (NEEDLE + Unlines(RestLines(codec, p)));
            Render(codec, p) == Unlines(["[Interface]"]) + (cut + (NEEDLE + after))
  {
    RenderIs(codec, p);
    HeadOfTableKey(codec, p.interface);
    JoinFive(Unlines(["[Interface]"]), KeyCut(p.interface.privateKey.value), NEEDLE,
             Unlines(AddressLines(codec, p.interface)), NEEDLE + Unlines(RestLines(codec, p)));
  }

  lemma JoinFive(a: string, b: string, c: string, d: string, e: string)
    ensures a + (b + c) + d + e == a + (b + (c + (d + e)))
  {
  }

  lemma FindsCut(table: string, lines: seq<string>, cut: string, after: string)
    requires '\n' !in table && table != "" && '\n' !in cut && FreeLines(lines) && NoneEndsSo(table, lines)
    ensures Find(Unlines(lines) + (cut + (table + ['\n'] + after)), table + ['\n']) == Some(|Unlines(lines)| + |cut|)
  {
    HitLine(table, cut, after);
    FindsLater(table, lines, cut + (table + ['\n'] + after), |cut|);
  }

  lemma FindsLater(table: string, lines: seq<string>, text: string, at: nat)
    requires '\n' !in table && table != "" && FreeLines(lines) && NoneEndsSo(table, lines)
    requires Find(text, table + ['\n']) == Some(at)
    ensures Find(Unlines(lines) + text, table + ['\n']) == Some(|Unlines(lines)| + at)
  {
    FindAfterLines(table, lines, text);
    FindAfterNothing(table, text);
  }

  lemma FindAfterNothing(table: string, text: string)
    ensures FindAfter(table, [], text) == Find(text, table + ['\n'])
  {
    assert Unlines([]) + text == text;
  }

  lemma CutsAt(table: string, lines: seq<string>, cut: string, after: string)
    requires '\n' !in table && table != "" && '\n' !in cut && FreeLines(lines) && NoneEndsSo(table, lines)
    ensures var text := Unlines(lines) + (cut + (table + ['\n'] + after));
            var pre, needle := Unlines(lines) + cut, table + ['\n'];
            && Find(text, needle) == Some(|pre|)
            && text[..|pre|] == pre && text[|pre|..] == needle + after && text[|pre| + |needle|..] == after
  {
    FindsCut(table, lines, cut, after);
    Reassociate(Unlines(lines), cut, table + ['\n'] + after);
    CutAt(Unlines(lines) + cut, table + ['\n'], after);
  }

  lemma CutsTableKey(cut: string, after: string)
    requires '\n' !in cut
    ensures var text, pre := Unlines(["[Interface]"]) + (cut + (NEEDLE + after)), Unlines(["[Interface]"]) + cut;
            Removed(text) == pre + after && forall ins :: Inserted(text, ins) == pre + ins + (NEEDLE + after)
  {
    assert FreeLines(["[Interface]"]) && NoneEndsSo(TABLE, ["[Interface]"]) by { HeadingEndsOtherwise(); }
    assert NEEDLE == TABLE + ['\n'] && '\n' !in TABLE;
    CutsAt(TABLE, ["[Interface]"], cut, after);
  }

  lemma KeyCutIsFree(key: string)
    requires EndsWith(key, TABLE) && '\n' !in key
    ensures '\n' !in KeyCut(key)
  {
  }

  lemma BareHead(codec: Codec, i: Interface)
    requires i.privateKey.Some? && i.addresses == [] && i.dns == []
    ensures AddressLines(codec, i) == []
    ensures HeadLines(codec, i) + DnsLines(codec, i) == ["[Interface]"] + [Directive("PrivateKey", i.privateKey.value)]
  {
  }

  lemma NothingBefore(text: string)
    ensures Unlines([]) + text == text
  {
  }

  /** With neither addresses nor DNS the cut text is followed by the real table line, and nothing is lost. */
  lemma SourceOfBareTableKey(codec: Codec, p: Profile)
    requires GoodInterface(codec, p.interface) && p.interface.privateKey.Some? &&
             EndsWith(p.interface.privateKey.value, TABLE)
    requires p.interface.addresses == [] && p.interface.dns == []
    ensures RenderSource(codec, p) == Unlines(SourceLines(codec, p))
  {
    var key, rest := p.interface.privateKey.value, Unlines(RestLines(codec, p));
    RenderOfTableKey(codec, p);
    KeyCutIsFree(key);
    BareHead(codec, p.interface);
    NothingBefore(NEEDLE + rest);
    CutsTableKey(KeyCut(key), NEEDLE + rest);
    SourceIs(codec, p);
    KeyLineIsCut(key);
    JoinThree(Unlines(["[Interface]"]), KeyCut(key), NEEDLE, rest);
  }

  lemma JoinThree(a: string, b: string, c: string, d: string)
    ensures a + b + (c + d) == a + (b + c) + d
  {
  }

  /** The lines before the table line that is left behind: one of them runs into the cut key. */
  function LinesBefore(codec: Codec, i: Interface): seq<string>
    requires i.privateKey.Some? && EndsWith(i.privateKey.value, TABLE) && (i.addresses != [] || i.dns != [])
  {
    var cut := KeyCut(i.privateKey.value);
    if i.dns == [] then ["[Interface]", cut + AddressLines(codec, i)[0]]
    else ["[Interface]", cut + DnsLines(codec, i)[0]] + AddressLines(codec, i)
  }

  lemma LinesBeforeAreFree(codec: Codec, i: Interface)
    requires GoodInterface(codec, i)
    requires i.privateKey.Some? && EndsWith(i.privateKey.value, TABLE) && (i.addresses != [] || i.dns != [])
    ensures FreeLines(LinesBefore(codec, i))
  {
    KeyCutIsFree(i.privateKey.value);
    AddressIsFree(codec, i);
    TailIsFree(codec, i);
  }

  /** Otherwise another line runs into the cut key and the real table line stays in the text. */
  lemma SourceOfTableKey(codec: Codec, p: Profile)
    requires GoodInterface(codec, p.interface) && p.interface.privateKey.Some? &&
             EndsWith(p.interface.privateKey.value, TABLE)
    requires p.interface.addresses != [] || p.interface.dns != []
    ensures RenderSource(codec, p) == Unlines(LinesBefore(codec, p.interface) + [TABLE] + RestLines(codec, p))
  {
    if p.interface.dns == [] { SourceCutsIntoAddress(codec, p); } else { SourceCutsIntoDns(codec, p); }
  }

  lemma SourceCutsIntoAddress(codec: Codec, p: Profile)
    requires GoodInterface(codec, p.interface) && p.interface.privateKey.Some? &&
             EndsWith(p.interface.privateKey.value, TABLE)
    requires p.interface.addresses != [] && p.interface.dns == []
    ensures RenderSource(codec, p) == Unlines(LinesBefore(codec, p.interface) + [TABLE] + RestLines(codec, p))
  {
    var i, cut := p.interface, KeyCut(p.interface.privateKey.value);
    var rest, address := RestLines(codec, p), AddressLines(codec, i);
    RenderOfTableKey(codec, p);
    KeyCutIsFree(i.privateKey.value);
    CutsTableKey(cut, Unlines(address) + (NEEDLE + Unlines(rest)));
    CutIntoAddress(cut, address[0], rest);
    assert address == [address[0]];
  }

  lemma SourceCutsIntoDns(codec: Codec, p: Profile)
    requires GoodInterface(codec, p.interface) && p.interface.privateKey.Some? &&
             EndsWith(p.interface.privateKey.value, TABLE)
    requires p.interface.dns != []
    ensures RenderSource(codec, p) == Unlines(LinesBefore(codec, p.interface) + [TABLE] + RestLines(codec, p))
  {
    var i, cut := p.interface, KeyCut(p.interface.privateKey.value);
    var line, after := DnsLines(codec, i)[0], Unlines(AddressLines(codec, i)) + (NEEDLE + Unlines(RestLines(codec, p)));
    RenderOfTableKey(codec, p);
    KeyCutIsFree(i.privateKey.value);
    CutsTableKey(cut, after);
    TailIsFree(codec, i);
    MergedInsertion(codec, i, cut, line, after);
    MergedLines(cut, line, AddressLines(codec, i), RestLines(codec, p));
  }

  lemma CutIntoAddress(cut: string, address: string, rest: seq<string>)
    ensures Unlines(["[Interface]"]) + cut + (Unlines([address]) + (NEEDLE + Unlines(rest)))
            == Unlines(["[Interface]", cut + address] + [TABLE] + rest)
  {
    MergedLines(cut, address, [], rest);
    UnlinesOne(address);
    assert Unlines([]) + (NEEDLE + Unlines(rest)) == NEEDLE + Unlines(rest);
    assert ["[Interface]", cut + address] + [] == ["[Interface]", cut + address];
  }

  lemma AddressIsFree(codec: Codec, i: Interface)
    requires GoodInterface(codec, i)
    ensures FreeLines(AddressLines(codec, i))
  {
    if i.addresses != [] { NetsRead(codec, i.addresses); }
    OptionalIsFree("Address", Listed(NetTexts(codec, i.addresses)));
  }

  lemma MergedLines(cut: string, line: string, more: seq<string>, after: seq<string>)
    ensures Unlines(["[Interface]"]) + cut + (line + "\n" + (Unlines(more) + (NEEDLE + Unlines(after))))
            == Unlines(["[Interface]", cut + line] + more + [TABLE] + after)
  {
    UnlinesConcat(["[Interface]"], [cut + line]);
    UnlinesOne(cut + line);
    assert ["[Interface]"] + [cut + line] == ["[Interface]", cut + line];
    UnlinesConcat(["[Interface]", cut + line], more);
    UnlinesFront(TABLE, after);
    UnlinesConcat(["[Interface]", cut + line] + more, [TABLE] + after);
    Associative(["[Interface]", cut + line] + more, [TABLE], after);
    JoinSix(Unlines(["[Interface]"]), cut, line, "\n", Unlines(more), NEEDLE + Unlines(after));
  }

  lemma JoinSix(a: string, b: string, c: string, d: string, e: string, f: string)
    ensures a + b + (c + d + (e + f)) == a + (b + c + d) + e + f
  {
  }

  lemma MergedInsertion(codec: Codec, i: Interface, cut: string, line: string, after: string)
    requires GoodInterface(codec, i) && i.dns != [] && line == Directive("DNS", Join(AddrTexts(codec, i.dns), ", "))
    requires '\n' !in cut && '\n' !in line
    ensures Removed(Unlines(["[Interface]"]) + cut + (line + "\n") + (NEEDLE + after))
            == Unlines(["[Interface]"]) + cut + (line + "\n" + after)
  {
    var lines := ["[Interface]", cut + line];
    HeadingEndsOtherwise();
    DnsEndsOtherwise(codec, i, cut);
    RemovedAfterLines(lines, after);
    assert ["[Interface]"] + [cut + line] == lines;
    UnlinesConcat(["[Interface]"], [cut + line]);
    UnlinesOne(cut + line);
    JoinThree(Unlines(["[Interface]"]), cut, line, "\n");
    JoinMerged(Unlines(["[Interface]"]), cut, line, "\n", after);
  }

  lemma JoinMerged(a: string, b: string, c: string, d: string, e: string)
    ensures a + (b + c + d) == a + b + (c + d)
    ensures a + (b + c + d) + e == a + b + (c + d + e)
  {
  }
}
