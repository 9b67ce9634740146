/**
 The bounded transition window of src/domain.rs: a push into a full window evicts
 the oldest entry of whichever component holds the most slots.
 */
module Window {
  import opened Basics
  import opened Domain

  // ---------------------------------------------------------------- specification

  /** How many entries of `w` belong to component `c`. */
  function Held(w: seq<Transition>, c: string): nat {
    if w == [] then 0
    else Held(w[..|w| - 1], c) + (if w[|w| - 1].component == c then 1 else 0)
  }

  /** Slots held by the component of entry `i`. */
  function Load(w: seq<Transition>, i: nat): nat
    requires i < |w|
  {
    Held(w, w[i].component)
  }

  /** `i` is the oldest entry of a busiest component, ties going to the component longest in the window. */
  ghost predicate IsVictim(w: seq<Transition>, i: nat) {
    && i < |w|
    && (forall j: nat | j < |w| :: Load(w, j) <= Load(w, i))
    && (forall j: nat | j < i :: Load(w, j) < Load(w, i))
  }

  /** The least index of greatest load among the first `n` entries. */
  function Busiest(w: seq<Transition>, n: nat): (r: nat)
    requires 0 < n <= |w|
    ensures r < n
    ensures forall j: nat | j < n :: Load(w, j) <= Load(w, r)
    ensures forall j: nat | j < r :: Load(w, j) < Load(w, r)
  {
    if n == 1 then 0
    else
      var best := Busiest(w, n - 1);
      if Load(w, best) < Load(w, n - 1) then n - 1 else best
  }

  function Victim(w: seq<Transition>): (r: nat)
    requires w != []
    ensures IsVictim(w, r)
  {
    Busiest(w, |w|)
  }

  lemma VictimIsUnique(w: seq<Transition>, i: nat)
    requires IsVictim(w, i)
    ensures i == Victim(w)
  {
    var v := Victim(w);
    assert Load(w, i) == Load(w, v);
  }

  function Without<T>(w: seq<T>, i: nat): (r: seq<T>)
    requires i < |w|
    ensures |r| == |w| - 1
  {
    w[..i] + w[i + 1..]
  }

  /** The window after `t` is pushed. */
  function Push(w: seq<Transition>, t: Transition): (r: seq<Transition>)
    ensures |r| <= TRANSITION_CAPACITY
    decreases |w|
  {
    if |w| < TRANSITION_CAPACITY then w + [t]
    else Push(Without(w, Victim(w)), t)
  }

  /** The window after pushing every transition of `run`, oldest first, into an empty window. */
  function WindowOf(run: seq<Transition>): seq<Transition> {
    if run == [] then []
    else Push(WindowOf(run[..|run| - 1]), run[|run| - 1])
  }

  // ------------------------------------------------------------------ imperative form

  /** What one component holds: how many entries, and the index of its oldest. */
  datatype Holding = Holding(count: nat, oldest: nat)

  /** `holdings` describes the first `n` entries of `w` exactly. */
  ghost predicate Tallied(w: seq<Transition>, n: nat, holdings: map<string, Holding>)
    requires n <= |w|
  {
    && (forall k: nat | k < n :: w[k].component in holdings)
    && (forall c <- holdings ::
          && holdings[c].oldest < n
          && w[holdings[c].oldest].component == c
          && holdings[c].count == Held(w[..n], c)
          && (forall k: nat | k < holdings[c].oldest :: w[k].component != c))
  }

  lemma TallyNext(w: seq<Transition>, n: nat, holdings: map<string, Holding>)
    requires n < |w| && Tallied(w, n, holdings)
    ensures Tallied(w, n + 1, Noted(holdings, w[n].component, n))
  {
    assert w[..n + 1][..n] == w[..n];
    if w[n].component !in holdings { AbsentHoldsNothing(w[..n], w[n].component); }
  }

  lemma AbsentHoldsNothing(w: seq<Transition>, c: string)
    requires forall k: nat | k < |w| :: w[k].component != c
    ensures Held(w, c) == 0
  {
    if w != [] { AbsentHoldsNothing(w[..|w| - 1], c); }
  }

  /** A later maximum beats an earlier one on count, then on the smaller oldest index. */
  predicate Beats(a: Holding, b: Holding) {
    a.count > b.count || (a.count == b.count && a.oldest < b.oldest)
  }

  function Noted(holdings: map<string, Holding>, c: string, index: nat): map<string, Holding> {
    var entry := if c in holdings then holdings[c] else Holding(0, index);
    holdings[c := entry.(count := entry.count + 1)]
  }

  method Tally(w: seq<Transition>) returns (holdings: map<string, Holding>)
    ensures Tallied(w, |w|, holdings)
    ensures w != [] ==> holdings != map[]
  {
    holdings := map[];
    for n := 0 to |w|
      invariant Tallied(w, n, holdings)
    {
      TallyNext(w, n, holdings);
      holdings := Noted(holdings, w[n].component, n);
    }
    assert w != [] ==> w[0].component in holdings;
  }

  /** The greatest entry, however the map happens to be walked. */
  method MaxHolding(holdings: map<string, Holding>) returns (best: Option<string>)
    ensures best.None? <==> holdings == map[]
    ensures best.Some? ==> best.value in holdings
    ensures best.Some? ==> forall c <- holdings :: !Beats(holdings[c], holdings[best.value])
  {
    var pending := holdings.Keys;
    best := None;
    while pending != {}
      invariant pending <= holdings.Keys
      invariant best.None? <==> pending == holdings.Keys
      invariant best.Some? ==> best.value in holdings
      invariant best.Some? ==> forall c <- holdings.Keys - pending :: !Beats(holdings[c], holdings[best.value])
      decreases |pending|
    {
      var c :| c in pending;
      if best.None? || Beats(holdings[c], holdings[best.value]) {
        best := Some(c);
      }
      pending := pending - {c};
    }
  }

  lemma MaxHoldingIsVictim(w: seq<Transition>, holdings: map<string, Holding>, best: string)
    requires Tallied(w, |w|, holdings) && best in holdings
    requires forall c <- holdings :: !Beats(holdings[c], holdings[best])
    ensures w != [] && holdings[best].oldest == Victim(w)
  {
    assert w[..|w|] == w;
    var oldest := holdings[best].oldest;
    forall j: nat | j < |w|
      ensures Load(w, j) <= Load(w, oldest)
      ensures j < oldest ==> Load(w, j) < Load(w, oldest)
    {
      var c := w[j].component;
      assert c in holdings && !Beats(holdings[c], holdings[best]);
    }
    VictimIsUnique(w, oldest);
  }

  /**
   The hash map is walked in an arbitrary order, yet the index returned is the one the
   window alone determines.
   */
  method BusiestComponentsOldest(w: seq<Transition>) returns (index: Option<nat>)
    ensures w == [] ==> index == None
    ensures w != [] ==> index == Some(Victim(w))
  {
    var holdings := Tally(w);
    var best := MaxHolding(holdings);
    if best.None? {
      return None;
    }
    MaxHoldingIsVictim(w, holdings, best.value);
    return Some(holdings[best.value].oldest);
  }

  class TransitionLog {
    var entries: seq<Transition>

    constructor ()
      ensures entries == []
    {
      entries := [];
    }

    method PushTransition(transition: Transition)
      modifies this
      ensures entries == Push(old(entries), transition)
    {
      while |entries| >= TRANSITION_CAPACITY
        invariant Push(entries, transition) == Push(old(entries), transition)
        decreases |entries|
      {
        var index := BusiestComponentsOldest(entries);
        entries := Without(entries, index.value);
      }
      entries := entries + [transition];
    }
  }

  // ----------------------------------------------------------------- runs of pushes

  /** Indices into `run` of the entries still in the window, in window order. */
  function Kept(run: seq<Transition>): seq<nat> {
    if run == [] then []
    else Keep(run, Kept(run[..|run| - 1]), |run| - 1)
  }

  function Keep(run: seq<Transition>, kept: seq<nat>, next: nat): seq<nat>
    decreases |kept|
  {
    if |kept| < TRANSITION_CAPACITY then kept + [next]
    else if !InRun(run, kept) then []
    else Keep(run, Without(kept, Victim(Pick(run, kept))), next)
  }

  predicate InRun(run: seq<Transition>, kept: seq<nat>) {
    forall k: nat | k < |kept| :: kept[k] < |run|
  }

  function Pick(run: seq<Transition>, kept: seq<nat>): (r: seq<Transition>)
    requires InRun(run, kept)
    ensures |r| == |kept|
  {
    seq(|kept|, k requires 0 <= k < |kept| => run[kept[k]])
  }

  predicate Increasing(kept: seq<nat>) {
    forall i: nat, j: nat | i < j < |kept| :: kept[i] < kept[j]
  }

  /** Whatever is kept of a component, everything pushed for it later (below `n`) is kept too. */
  predicate KeepsNewest(run: seq<Transition>, kept: seq<nat>, n: nat)
    requires InRun(run, kept) && n <= |run|
  {
    forall i: nat, j: nat | i < |kept| && kept[i] < j < n && run[j].component == run[kept[i]].component :: j in kept
  }

  /** The components a run names. */
  function Components(run: seq<Transition>): set<string> {
    set t | t in run :: t.component
  }

  /** The slots a component is never squeezed below: one less than an even share, rounded up. */
  function Share(m: nat): nat
    requires m > 0
  {
    (TRANSITION_CAPACITY + m - 1) / m - 1
  }

  ghost predicate Fair(run: seq<Transition>, kept: seq<nat>, n: nat, share: nat)
    requires InRun(run, kept) && n <= |run|
  {
    forall c: string :: Held(Pick(run, kept), c) >= Min(Held(run[..n], c), share)
  }

  /** Everything that holds of the window after `n` pushes of `run`. */
  ghost predicate Faithful(run: seq<Transition>, kept: seq<nat>, n: nat, share: nat) {
    && n <= |run|
    && (forall k: nat | k < |kept| :: kept[k] < n)
    && InRun(run, kept)
    && Increasing(kept)
    && KeepsNewest(run, kept, n)
    && Fair(run, kept, n, share)
  }

  lemma HeldWithout(w: seq<Transition>, i: nat, c: string)
    requires i < |w|
    ensures Held(Without(w, i), c) == Held(w, c) - (if w[i].component == c then 1 else 0)
  {
    var last := |w| - 1;
    if i == last {
      assert Without(w, i) == w[..last];
    } else {
      HeldWithout(w[..last], i, c);
      assert Without(w, i)[..last - 1] == Without(w[..last], i);
      assert Without(w, i)[last - 1] == w[last];
    }
  }

  /** The entries of `w` whose component is one of `cs`. */
  function HeldByAny(w: seq<Transition>, cs: set<string>): nat {
    if w == [] then 0
    else HeldByAny(w[..|w| - 1], cs) + (if w[|w| - 1].component in cs then 1 else 0)
  }

  lemma HeldByAnyRemove(w: seq<Transition>, cs: set<string>, c: string)
    requires c in cs
    ensures HeldByAny(w, cs) == HeldByAny(w, cs - {c}) + Held(w, c)
  {
    if w != [] { HeldByAnyRemove(w[..|w| - 1], cs, c); }
  }

  lemma HeldByAnyBound(w: seq<Transition>, cs: set<string>, most: nat)
    requires forall c <- cs :: Held(w, c) <= most
    ensures HeldByAny(w, cs) <= |cs| * most
  {
    if cs == {} {
      HeldByNone(w);
    } else {
      var c :| c in cs;
      HeldByAnyBound(w, cs - {c}, most);
      HeldByAnyRemove(w, cs, c);
      assert |cs| == |cs - {c}| + 1;
      assert |cs| * most == |cs - {c}| * most + most;
    }
  }

  lemma HeldByNone(w: seq<Transition>)
    ensures HeldByAny(w, {}) == 0
  {
    if w != [] { HeldByNone(w[..|w| - 1]); }
  }

  lemma HeldByAll(w: seq<Transition>, cs: set<string>)
    requires forall t <- w :: t.component in cs
    ensures HeldByAny(w, cs) == |w|
  {
    if w != [] {
      assert w[|w| - 1] in w;
      HeldByAll(w[..|w| - 1], cs);
    }
  }

  lemma HeldOnlyByNamed(w: seq<Transition>, c: string)
    ensures Held(w, c) > 0 ==> c in Components(w)
  {
    if w != [] {
      HeldOnlyByNamed(w[..|w| - 1], c);
      assert w[|w| - 1] in w;
    }
  }

  /** Pigeonhole: in a full window of at most `m` components, the victim's component holds more than a share. */
  lemma VictimHoldsMoreThanShare(w: seq<Transition>, cs: set<string>, m: nat)
    requires |w| >= TRANSITION_CAPACITY && 0 < m && |cs| <= m
    requires forall t <- w :: t.component in cs
    ensures Load(w, Victim(w)) > Share(m)
  {
    var most := Load(w, Victim(w));
    forall c <- cs ensures Held(w, c) <= most {
      HeldOnlyByNamed(w, c);
      if Held(w, c) > 0 {
        var t :| t in w && t.component == c;
        var j: nat :| j < |w| && w[j] == t;
        assert Load(w, j) <= most;
      }
    }
    HeldByAnyBound(w, cs, most);
    HeldByAll(w, cs);
    assert |cs| * most <= m * most by { MulMono(|cs|, m, most); }
    if most <= Share(m) {
      MulMono(most, Share(m), m);
      ShareIsTight(m);
    }
  }

  lemma MulMono(a: nat, b: nat, k: nat)
    requires a <= b
    ensures a * k <= b * k && k * a <= k * b
  {
  }

  lemma ShareIsTight(m: nat)
    requires m > 0
    ensures Share(m) * m < TRANSITION_CAPACITY
  {
    var q := (TRANSITION_CAPACITY + m - 1) / m;
    assert q * m <= TRANSITION_CAPACITY + m - 1;
    assert Share(m) * m == q * m - m;
  }

  lemma PickWithout(run: seq<Transition>, kept: seq<nat>, v: nat)
    requires InRun(run, kept) && v < |kept|
    ensures InRun(run, Without(kept, v))
    ensures Pick(run, Without(kept, v)) == Without(Pick(run, kept), v)
  {
  }

  /** Evicting the victim of a full window keeps order, newest-first retention and the share. */
  lemma EvictFaithful(run: seq<Transition>, kept: seq<nat>, n: nat, m: nat)
    requires 0 < m && |Components(run)| <= m
    requires |kept| >= TRANSITION_CAPACITY && Faithful(run, kept, n, Share(m))
    ensures Faithful(run, Without(kept, Victim(Pick(run, kept))), n, Share(m))
  {
    var w := Pick(run, kept);
    var v := Victim(w);
    var left := Without(kept, v);
    PickWithout(run, kept, v);
    forall t <- w ensures t.component in Components(run) {
      var k: nat :| k < |w| && w[k] == t;
      assert run[kept[k]] in run;
    }
    VictimHoldsMoreThanShare(w, Components(run), m);
    forall c: string ensures Held(Pick(run, left), c) >= Min(Held(run[..n], c), Share(m)) {
      HeldWithout(w, v, c);
    }
    EvictKeepsNewest(run, kept, n);
  }

  lemma EvictKeepsNewest(run: seq<Transition>, kept: seq<nat>, n: nat)
    requires n <= |run| && kept != [] && InRun(run, kept) && Increasing(kept) && KeepsNewest(run, kept, n)
    ensures var left := Without(kept, Victim(Pick(run, kept)));
            InRun(run, left) && Increasing(left) && KeepsNewest(run, left, n)
  {
    var w := Pick(run, kept);
    var v := Victim(w);
    var left := Without(kept, v);
    PickWithout(run, kept, v);
    forall i: nat, j: nat |
      i < |left| && left[i] < j < n && run[j].component == run[left[i]].component
      ensures j in left
    {
      var at := if i < v then i else i + 1;
      assert kept[at] == left[i];
      assert j in kept;
      var k: nat :| k < |kept| && kept[k] == j;
      // Were k the victim, entry `at` would be an older entry of the victim's own component.
      assert at < k && w[at].component == w[k].component;
      assert at < v ==> Load(w, at) < Load(w, v);
      assert k != v;
      assert left[if k < v then k else k - 1] == j;
    }
  }

  lemma AppendFaithful(run: seq<Transition>, kept: seq<nat>, n: nat, share: nat)
    requires n < |run| && Faithful(run, kept, n, share)
    ensures Faithful(run, kept + [n], n + 1, share)
  {
    var w := Pick(run, kept);
    var w' := Pick(run, kept + [n]);
    assert w' == w + [run[n]];
    assert w'[..|w'| - 1] == w;
    assert run[..n + 1][..n] == run[..n];
    assert Fair(run, kept + [n], n + 1, share) by {
      forall c: string ensures Held(w', c) >= Min(Held(run[..n + 1], c), share) {
        assert Held(w, c) >= Min(Held(run[..n], c), share);
      }
    }
    forall i: nat, j: nat |
      i < |kept + [n]| && (kept + [n])[i] < j < n + 1 && run[j].component == run[(kept + [n])[i]].component
      ensures j in kept + [n]
    {
      if j < n { assert j in kept; } else { assert (kept + [n])[|kept|] == j; }
    }
  }

  lemma KeepFaithful(run: seq<Transition>, kept: seq<nat>, n: nat, m: nat)
    requires n < |run| && 0 < m && |Components(run)| <= m
    requires Faithful(run, kept, n, Share(m))
    ensures Faithful(run, Keep(run, kept, n), n + 1, Share(m))
    ensures Pick(run, Keep(run, kept, n)) == Push(Pick(run, kept), run[n])
    decreases |kept|
  {
    if |kept| < TRANSITION_CAPACITY {
      AppendFaithful(run, kept, n, Share(m));
      assert Pick(run, kept + [n]) == Pick(run, kept) + [run[n]];
    } else {
      var v := Victim(Pick(run, kept));
      EvictFaithful(run, kept, n, m);
      PickWithout(run, kept, v);
      KeepFaithful(run, Without(kept, v), n, m);
    }
  }

  /** `Keep` reads only the entries it is given, so a longer run chooses the same victims. */
  lemma KeepIgnoresTail(run: seq<Transition>, n: nat, kept: seq<nat>, next: nat)
    requires n <= |run| && InRun(run[..n], kept)
    ensures InRun(run, kept) && Keep(run[..n], kept, next) == Keep(run, kept, next)
    decreases |kept|
  {
    if |kept| >= TRANSITION_CAPACITY {
      assert Pick(run[..n], kept) == Pick(run, kept);
      var v := Victim(Pick(run, kept));
      PickWithout(run[..n], kept, v);
      KeepIgnoresTail(run, n, Without(kept, v), next);
    }
  }

  lemma {:induction false} RunPrefixFaithful(run: seq<Transition>, n: nat, m: nat)
    requires n <= |run| && 0 < m && |Components(run)| <= m
    ensures Faithful(run, Kept(run[..n]), n, Share(m))
    ensures Pick(run, Kept(run[..n])) == WindowOf(run[..n])
  {
    if n > 0 {
      RunPrefixFaithful(run, n - 1, m);
      assert run[..n][..n - 1] == run[..n - 1];
      var kept := Kept(run[..n - 1]);
      KeepIgnoresTail(run, n, kept, n - 1);
      KeepFaithful(run, kept, n - 1, m);
    } else {
      assert Pick(run, []) == [];
      assert Kept(run[..0]) == [];
    }
  }

  /**
   In any run naming at most `m` components the window never exceeds its capacity, lists what
   it keeps in push order, keeps of every component exactly its newest pushes, and never
   squeezes a component below its pushes or a share, whichever is less.
   */
  lemma WindowFairness(run: seq<Transition>, m: nat)
    requires 0 < m && |Components(run)| <= m
    ensures |WindowOf(run)| <= TRANSITION_CAPACITY
    ensures InRun(run, Kept(run)) && Increasing(Kept(run)) && WindowOf(run) == Pick(run, Kept(run))
    ensures KeepsNewest(run, Kept(run), |run|)
    ensures forall c: string :: Held(WindowOf(run), c) >= Min(Held(run, c), Share(m))
  {
    RunPrefixFaithful(run, |run|, m);
    assert run[..|run|] == run;
    assert Fair(run, Kept(run), |run|, Share(m));
    if run != [] { assert |Push(WindowOf(run[..|run| - 1]), run[|run| - 1])| <= TRANSITION_CAPACITY; }
  }
}
