/** The names of the kernel's per-client counters, from src/host.rs. */
module CounterNames {
  import opened Basics

  /** The letters and digits of an identifier. */
  function Safe(id: string): string {
    if id == "" then ""
    else if IsAlphanumeric(id[0]) then [id[0]] + Safe(id[1..])
    else Safe(id[1..])
  }

  function Clipped(s: string): string { if |s| <= 64 then s else s[..64] }

  function CounterName(direction: string, id: string): string { "client_" + direction + "_" + Clipped(Safe(id)) }

  /** Names agree exactly when what is kept of the identifiers does; the directions never meet. */
  lemma NamesAgreeIff(direction: string, a: string, b: string)
    ensures CounterName(direction, a) == CounterName(direction, b) <==> Clipped(Safe(a)) == Clipped(Safe(b))
    ensures CounterName("down", a) != CounterName("up", b)
  {
    var prefix := "client_" + direction + "_";
    assert CounterName(direction, a)[|prefix|..] == Clipped(Safe(a));
    assert CounterName(direction, b)[|prefix|..] == Clipped(Safe(b));
    assert CounterName("down", a)[7] == 'd' && CounterName("up", b)[7] == 'u';
  }

  lemma {:induction false} SafeKeepsAlphanumeric(id: string)
    requires forall ch <- id :: IsAlphanumeric(ch)
    ensures Safe(id) == id
  {
    if id != "" {
      assert id[0] in id;
      assert forall ch <- id[1..] :: ch in id;
      SafeKeepsAlphanumeric(id[1..]);
      assert id == [id[0]] + id[1..];
    }
  }

  lemma {:induction false} SafeConcat(a: string, b: string)
    ensures Safe(a + b) == Safe(a) + Safe(b)
  {
    if a == "" {
      assert a + b == b;
    } else {
      assert (a + b)[0] == a[0] && (a + b)[1..] == a[1..] + b;
      SafeConcat(a[1..], b);
    }
  }

  // ------------------------------------------------------------- identifiers in practice

  predicate IsHexDigit(c: char) { '0' <= c <= '9' || 'a' <= c <= 'f' }

  predicate Hex(s: string) { forall i | 0 <= i < |s| :: IsHexDigit(s[i]) }

  /** Docker's container identifiers. */
  predicate DockerId(id: string) { |id| == 64 && Hex(id) }

  /** Five groups of hexadecimal digits with hyphens between. */
  predicate Uuid(u: string) {
    && |u| == 36 && u[8] == u[13] == u[18] == u[23] == '-'
    && Hex(u[..8]) && Hex(u[9..13]) && Hex(u[14..18]) && Hex(u[19..23]) && Hex(u[24..])
  }

  const POD_PREFIX := "k8s-"

  function UuidDigits(u: string): string
    requires Uuid(u)
  {
    u[..8] + u[9..13] + u[14..18] + u[19..23] + u[24..]
  }

  lemma SafeHex(s: string)
    requires Hex(s)
    ensures Safe(s) == s
  {
    SafeKeepsAlphanumeric(s);
  }

  lemma SafeAfterHyphen(a: string, b: string)
    requires Hex(b)
    ensures Safe(a + "-" + b) == Safe(a) + b
  {
    SafeConcat(a, "-");
    SafeConcat(a + "-", b);
    SafeHex(b);
    assert Safe("-") == "" by { assert "-"[1..] == ""; }
  }

  lemma SafeUuid(u: string)
    requires Uuid(u)
    ensures Safe(u) == UuidDigits(u)
  {
    SafeHex(u[..8]);
    SafeAfterHyphen(u[..8], u[9..13]);
    SafeAfterHyphen(u[..13], u[14..18]);
    SafeAfterHyphen(u[..18], u[19..23]);
    SafeAfterHyphen(u[..23], u[24..]);
    assert u[..13] == u[..8] + "-" + u[9..13] && u[..18] == u[..13] + "-" + u[14..18];
    assert u[..23] == u[..18] + "-" + u[19..23] && u == u[..23] + "-" + u[24..];
  }

  lemma SafePodId(u: string)
    requires Uuid(u)
    ensures Safe(POD_PREFIX + u) == "k8s" + UuidDigits(u) && Clipped(Safe(POD_PREFIX + u)) == Safe(POD_PREFIX + u)
  {
    SafeUuid(u);
    SafeConcat(POD_PREFIX, u);
    SafeAfterHyphen("k8s", "");
    SafeKeepsAlphanumeric("k8s");
    assert "k8s" + "-" + "" == POD_PREFIX && "k8s" + "" == "k8s";
  }

  lemma UuidFromDigits(u: string, v: string)
    requires Uuid(u) && Uuid(v) && UuidDigits(u) == UuidDigits(v)
    ensures u == v
  {
    assert u[..8] == UuidDigits(u)[..8] && v[..8] == UuidDigits(v)[..8];
    assert u[9..13] == UuidDigits(u)[8..12] && v[9..13] == UuidDigits(v)[8..12];
    assert u[14..18] == UuidDigits(u)[12..16] && v[14..18] == UuidDigits(v)[12..16];
    assert u[19..23] == UuidDigits(u)[16..20] && v[19..23] == UuidDigits(v)[16..20];
    assert u[24..] == UuidDigits(u)[20..] && v[24..] == UuidDigits(v)[20..];
    assert u == u[..8] + "-" + u[9..13] + "-" + u[14..18] + "-" + u[19..23] + "-" + u[24..];
    assert v == v[..8] + "-" + v[9..13] + "-" + v[14..18] + "-" + v[19..23] + "-" + v[24..];
  }

  /** Containers named by Docker and pods named by their UUIDs all have counter names of their own. */
  lemma IdentifiersNameTheirCounters(direction: string, a: string, b: string, u: string, v: string)
    requires DockerId(a) && DockerId(b) && Uuid(u) && Uuid(v)
    ensures CounterName(direction, a) == CounterName(direction, b) <==> a == b
    ensures CounterName(direction, POD_PREFIX + u) == CounterName(direction, POD_PREFIX + v) <==> u == v
    ensures CounterName(direction, a) != CounterName(direction, POD_PREFIX + u)
  {
    SafeHex(a);
    SafeHex(b);
    SafePodId(u);
    SafePodId(v);
    NamesAgreeIff(direction, a, b);
    NamesAgreeIff(direction, POD_PREFIX + u, POD_PREFIX + v);
    NamesAgreeIff(direction, a, POD_PREFIX + u);
    assert UuidDigits(u) == ("k8s" + UuidDigits(u))[3..] && UuidDigits(v) == ("k8s" + UuidDigits(v))[3..];
    if UuidDigits(u) == UuidDigits(v) { UuidFromDigits(u, v); }
    assert a[0] != 'k';
  }

  /** Identifiers in general do not: hyphens make no difference. */
  lemma HyphensAreIgnored(direction: string)
    ensures CounterName(direction, "k8s-a-b") == CounterName(direction, "k8s-ab")
  {
    SafeAfterHyphen("k8s-a", "b");
    SafeAfterHyphen("k8s", "a");
    SafeAfterHyphen("k8s", "ab");
    assert "k8s-a" + "-" + "b" == "k8s-a-b" && "k8s" + "-" + "a" == "k8s-a" && "k8s" + "-" + "ab" == "k8s-ab";
    assert Safe("k8s") + "a" + "b" == Safe("k8s") + "ab";
    NamesAgreeIff(direction, "k8s-a-b", "k8s-ab");
  }
}
