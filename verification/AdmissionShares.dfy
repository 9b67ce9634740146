/** How the pool is divided: shares, borrowing, and the size of the client table. */
module AdmissionShares {
  import opened Basics
  import opened Admission
  import opened AdmissionSafety

  // ----------------------------------------------------------------------------- shares

  lemma DivAntitone(n: nat, a: nat, b: nat)
    requires 0 < a <= b
    ensures n / b <= n / a
  {
    assert n == n / b * b + n % b;
    MulLe(n / b, a, b);
    DivAtLeast(n, a, n / b);
  }

  lemma DivAtLeast(n: nat, a: nat, q: nat)
    requires 0 < a && q * a <= n
    ensures q <= n / a
  {
    assert a * (n / a + 1) == a * (n / a) + a;
    if q > n / a { MulLe(a, n / a + 1, q); }
  }

  lemma MulLe(k: nat, a: nat, b: nat)
    requires a <= b
    ensures k * a <= k * b
  {
  }

  /** A share never grows as clients arrive, and stays between the floor and the whole pool. */
  lemma SharesShrinkWithinBounds(limit: nat, n: nat, m: nat)
    requires n <= m
    ensures Share(limit, m) <= Share(limit, n)
    ensures Min(MIN_CLIENT_SHARE, limit) <= Share(limit, n) <= limit
    ensures Share(limit, 1) == limit
  {
    DivAntitone(limit, Max(n, 1), Max(m, 1));
  }

  // ------------------------------------------------------------------------ one acquire

  ghost predicate Configured(s: State) {
    s.limit >= 1 && s.reserve >= 1 && (s.fixed.Some? ==> 1 <= s.fixed.value <= s.limit)
  }

  /** Up to the claim, an acquire only watches what others give back. */
  lemma StagesBeforeClaim(s: State, client: Ip, now: Instant, gaps: Gaps)
    requires Consistent(s, None)
    ensures var (s1, counter, active) := Shared(s, client, now);
            var s2 := ReturnedAll(s1, gaps.afterShare);
            var s3 := ReturnedAll(s2, gaps.beforeClaim);
            && Consistent(s1, None) && Consistent(s3, None)
            && s1.free == s.free && s1.limit == s.limit && s1.reserve == s.reserve && s1.fixed == s.fixed
            && GivesBack(s1, s2) && GivesBack(s2, s3)
            && client in s1.loads && s1.loads[client].counter == counter
  {
    var s1 := Shared(s, client, now).0;
    SharedConsistent(s, client, now);
    ReturnedAllConsistent(s1, None, gaps.afterShare);
    ReturnedAllConsistent(ReturnedAll(s1, gaps.afterShare), None, gaps.beforeClaim);
  }

  /** Between the claim and the global permit too, the slot being counted already. */
  lemma StagesAfterClaim(s3: State, client: Ip, rs: seq<Release>)
    requires Consistent(s3, None) && client in s3.loads
    ensures var s4 := Adjusted(s3, s3.loads[client].counter, 1);
            var s5 := ReturnedAll(s4, rs);
            && Consistent(s5, Some(client)) && GivesBack(s4, s5)
            && s4.free == s3.free && s4.loads == s3.loads && s4.limit == s3.limit && s4.reserve == s3.reserve
            && Value(s4.counters, s3.loads[client].counter) == Value(s3.counters, s3.loads[client].counter) + 1
  {
    ClaimedConsistent(s3, client);
    ReturnedAllConsistent(Adjusted(s3, s3.loads[client].counter, 1), Some(client), rs);
  }

  lemma Stages(s: State, client: Ip, now: Instant, gaps: Gaps)
    requires Consistent(s, None)
    ensures var (s1, counter, active) := Shared(s, client, now);
            var s2 := ReturnedAll(s1, gaps.afterShare);
            var s3 := ReturnedAll(s2, gaps.beforeClaim);
            var s5 := ReturnedAll(Adjusted(s3, counter, 1), gaps.beforeGlobal);
            && Consistent(s1, None) && client in s1.loads && s1.loads[client].counter == counter
            && s.free <= s2.free <= s3.free <= s5.free
            && s2.limit == s.limit && s2.reserve == s.reserve && s2.fixed == s.fixed
            && s5.loads == s1.loads && Consistent(s5, Some(client))
            && Value(s3.counters, counter) <= Value(s1.counters, counter)
            && Value(s5.counters, counter) <= Value(s3.counters, counter) + 1
  {
    StagesBeforeClaim(s, client, now, gaps);
    var s1 := Shared(s, client, now).0;
    StagesAfterClaim(ReturnedAll(ReturnedAll(s1, gaps.afterShare), gaps.beforeClaim), client, gaps.beforeGlobal);
  }

  /** Work conservation: a client with nothing in flight is admitted whenever a permit is free. */
  lemma IdleClientIsAdmitted(s: State, client: Ip, now: Instant, gaps: Gaps)
    requires Consistent(s, None) && Configured(s)
    requires LiveSlots(s, client) == {} && s.free >= 1
    ensures TryAcquire(s, client, now, gaps).1.Admitted?
  {
    Stages(s, client, now, gaps);
    SharedKeepsSlots(s, client, now);
    var (s1, counter, active) := Shared(s, client, now);
    var s2 := ReturnedAll(s1, gaps.afterShare);
    assert LoadOk(s1, None, client);
    SharesShrinkWithinBounds(s.limit, active, active);
    assert AdmissionLimit(s2, active) >= 1;
  }

  /**
   What an admission leaves, whatever returns meanwhile: the reserve still free, or the client
   within its share of the pool.
   */
  lemma AdmissionLeavesReserveOrShare(s: State, client: Ip, now: Instant, gaps: Gaps)
    requires Consistent(s, None) && s.fixed.None?
    requires TryAcquire(s, client, now, gaps).1.Admitted?
    ensures var s' := TryAcquire(s, client, now, gaps).0;
            var active := Shared(s, client, now).2;
            s'.free >= s.reserve || |LiveSlots(s', client)| <= Share(s.limit, active)
  {
    Stages(s, client, now, gaps);
    var (s1, counter, active) := Shared(s, client, now);
    var s2 := ReturnedAll(s1, gaps.afterShare);
    var s3 := ReturnedAll(s2, gaps.beforeClaim);
    var s5 := ReturnedAll(Adjusted(s3, counter, 1), gaps.beforeGlobal);
    var s' := TakeGlobal(s5, client, counter).0;
    TakenConsistent(s5, client);
    assert LoadOk(s', None, client);
  }

  // ------------------------------------------------------------------------------ bursts

  /** Every permit out is whole and belongs to `client`. */
  ghost predicate OnlyBurst(s: State, client: Ip) {
    forall p <- s.permits ::
      s.permits[p].slotHeld == s.permits[p].globalHeld && (s.permits[p].globalHeld ==> s.permits[p].client == client)
  }

  predicate AllWhole(rs: seq<Release>) { forall r <- rs :: r.ReleaseWhole? }

  /** An event of the burst: an acquire by the client, or one of its permits returned whole. */
  ghost predicate BurstEvent(s: State, e: Event, client: Ip, n: nat) {
    match e
    case Acquire(who, now, gaps) =>
      && who == client && n <= Shared(s, client, now).2
      && AllWhole(gaps.afterShare) && AllWhole(gaps.beforeClaim) && AllWhole(gaps.beforeGlobal)
    case Return(r) => r.ReleaseWhole?
  }

  lemma {:induction false} WholeReturnsKeepBurst(s: State, client: Ip, rs: seq<Release>)
    requires OnlyBurst(s, client) && AllWhole(rs)
    ensures OnlyBurst(ReturnedAll(s, rs), client)
  {
    if rs != [] {
      assert rs[|rs| - 1] in rs;
      assert forall r <- rs[..|rs| - 1] :: r in rs;
      WholeReturnsKeepBurst(s, client, rs[..|rs| - 1]);
    }
  }

  /** In a burst, what is not free is exactly what the client holds. */
  lemma BurstHolds(s: State, client: Ip)
    requires Consistent(s, None) && OnlyBurst(s, client)
    ensures s.free == s.limit - |LiveSlots(s, client)|
  {
    assert LiveSlots(s, client) == Outstanding(s);
  }

  ghost predicate LeavesRoom(s: State, n: nat) {
    s.free >= Min(s.reserve, s.limit - Share(s.limit, n))
  }

  lemma BurstStep(s: State, e: Event, client: Ip, n: nat)
    requires Consistent(s, None) && s.fixed.None? && OnlyBurst(s, client) && BurstEvent(s, e, client, n)
    requires Share(s.limit, n) <= s.limit && LeavesRoom(s, n)
    ensures OnlyBurst(Step(s, e), client) && LeavesRoom(Step(s, e), n)
  {
    SettingsKept(s, e);
    StepConsistent(s, e);
    match e
    case Return(r) =>
      assert ReturnedAll(s, [r]) == Step(s, e) by { assert [r][..0] == []; assert ReturnedAll(s, [r][..0]) == s; }
      WholeReturnsKeepBurst(s, client, [r]);
    case Acquire(who, now, gaps) =>
      BurstAcquire(s, client, now, gaps);
      if TryAcquire(s, client, now, gaps).1.Admitted? {
        AdmissionLeavesReserveOrShare(s, client, now, gaps);
        SharesShrinkWithinBounds(s.limit, n, Shared(s, client, now).2);
        BurstHolds(Step(s, e), client);
      } else {
        RefusalKeepsFree(s, client, now, gaps);
      }
  }

  lemma BurstAcquire(s: State, client: Ip, now: Instant, gaps: Gaps)
    requires OnlyBurst(s, client)
    requires AllWhole(gaps.afterShare) && AllWhole(gaps.beforeClaim) && AllWhole(gaps.beforeGlobal)
    ensures OnlyBurst(TryAcquire(s, client, now, gaps).0, client)
  {
    var (s1, counter, active) := Shared(s, client, now);
    assert s1.permits == s.permits;
    var s2 := ReturnedAll(s1, gaps.afterShare);
    WholeReturnsKeepBurst(s1, client, gaps.afterShare);
    var s3 := ReturnedAll(s2, gaps.beforeClaim);
    WholeReturnsKeepBurst(s2, client, gaps.beforeClaim);
    if CanClaim(s3, counter, AdmissionLimit(s2, active)) {
      var s4 := Adjusted(s3, counter, 1);
      assert s4.permits == s3.permits;
      WholeReturnsKeepBurst(s4, client, gaps.beforeGlobal);
      TakingKeepsBurst(ReturnedAll(s4, gaps.beforeGlobal), client, counter);
    }
  }

  lemma TakingKeepsBurst(s: State, client: Ip, counter: CounterId)
    requires OnlyBurst(s, client)
    ensures OnlyBurst(TakeGlobal(s, client, counter).0, client)
  {
  }

  lemma RefusalKeepsFree(s: State, client: Ip, now: Instant, gaps: Gaps)
    requires Consistent(s, None) && TryAcquire(s, client, now, gaps).1.Refused?
    ensures TryAcquire(s, client, now, gaps).0.free >= s.free
  {
    Stages(s, client, now, gaps);
  }

  ghost predicate BurstRun(s: State, events: seq<Event>, client: Ip, n: nat) {
    forall k: nat | k < |events| :: BurstEvent(Run(s, events[..k]), events[k], client, n)
  }

  /**
   With at least `n` clients tracked and no fixed ceiling, a burst by one client alone never
   leaves fewer free permits than the reserve or the rest of the pool outside its share,
   whichever is less.
   */
  lemma {:induction false} BurstLeavesRoom(s: State, events: seq<Event>, client: Ip, n: nat)
    requires Consistent(s, None) && s.fixed.None? && s.free == s.limit && OnlyBurst(s, client)
    requires BurstRun(s, events, client, n)
    ensures var s' := Run(s, events);
            && s'.limit == s.limit && s'.reserve == s.reserve && s'.fixed.None?
            && Consistent(s', None) && OnlyBurst(s', client) && LeavesRoom(s', n)
  {
    SharesShrinkWithinBounds(s.limit, n, n);
    if events != [] {
      var k := |events| - 1;
      var before := Run(s, events[..k]);
      forall j: nat | j < k ensures BurstEvent(Run(s, events[..k][..j]), events[..k][j], client, n) {
        assert events[..k][..j] == events[..j];
      }
      BurstLeavesRoom(s, events[..k], client, n);
      assert BurstEvent(before, events[k], client, n);
      BurstStep(before, events[k], client, n);
      SettingsKept(before, events[k]);
      StepConsistent(before, events[k]);
    }
  }

  // ------------------------------------------------------------------- size of the table

  function AllSlots(s: State): set<PermitId> { set p | p in s.permits && s.permits[p].slotHeld }

  function SlotClients(s: State): set<Ip> { set p | p in AllSlots(s) :: s.permits[p].client }

  lemma {:induction false} ImageSize(s: State, ps: set<PermitId>)
    requires ps <= s.permits.Keys
    ensures |set p | p in ps :: s.permits[p].client| <= |ps|
  {
    if ps == {} {
      assert (set p | p in ps :: s.permits[p].client) == {};
    } else {
      var x :| x in ps;
      ImageSize(s, ps - {x});
      assert (set p | p in ps :: s.permits[p].client)
          == (set p | p in ps - {x} :: s.permits[p].client) + {s.permits[x].client};
    }
  }

  /** What an over-capacity prune keeps has a slot out; otherwise the table was within capacity. */
  lemma PruneBoundsTable(s: State, now: Instant)
    requires Consistent(s, None)
    ensures |Pruned(s, now).loads.Keys| <= Max(MAX_TRACKED_CLIENTS, |AllSlots(s)|)
  {
    var kept := Pruned(s, now).loads.Keys;
    if OverCapacity(s) {
      forall ip <- kept ensures ip in SlotClients(s) {
        assert LoadOk(s, None, ip);
        assert Value(s.counters, s.loads[ip].counter) > 0;
        assert LiveSlots(s, ip) != {};
        var p :| p in LiveSlots(s, ip);
        assert p in AllSlots(s);
      }
      ImageSize(s, AllSlots(s));
      SubsetSize(kept, SlotClients(s));
    } else {
      SubsetSize(kept, s.loads.Keys);
    }
  }

  /** One more than the capacity, or than the slots out, is all an arrival can leave in the table. */
  lemma ArrivalBoundsTable(s: State, client: Ip, now: Instant)
    requires Consistent(s, None)
    ensures |Shared(s, client, now).0.loads| <= Max(MAX_TRACKED_CLIENTS, |AllSlots(s)|) + 1
  {
    PruneBoundsTable(s, now);
    SeenGrowsByOne(Pruned(s, now), client, now);
  }

  lemma SeenGrowsByOne(s: State, client: Ip, now: Instant)
    ensures |Seen(s, client, now).loads| <= |s.loads.Keys| + 1
  {
    var after := Seen(s, client, now).loads;
    assert after.Keys == s.loads.Keys + {client};
    assert |after| == |after.Keys|;
  }

  /** Slots that have outlived their global permits. */
  function Stragglers(s: State): set<PermitId> {
    set p | p in s.permits && s.permits[p].slotHeld && !s.permits[p].globalHeld
  }

  /** The most slots that outlived their global permits at any acquire of the run. */
  function MostStragglers(s: State, events: seq<Event>): nat {
    if events == [] then 0
    else
      var before := events[..|events| - 1];
      Max(MostStragglers(s, before), if events[|events| - 1].Acquire? then |Stragglers(Run(s, before))| else 0)
  }

  lemma SlotsAreOutstandingOrStraggling(s: State)
    requires Consistent(s, None)
    ensures |AllSlots(s)| <= s.limit + |Stragglers(s)|
  {
    SubsetSize(AllSlots(s), Outstanding(s) + Stragglers(s));
    UnionSize(Outstanding(s), Stragglers(s));
  }

  lemma UnionSize<T>(a: set<T>, b: set<T>)
    ensures |a + b| <= |a| + |b|
  {
    assert a + b == a + (b - a);
    SubsetSize(b - a, b);
  }

  /**
   Over every run, with permits and slots returned in any order: the table tracks at most one client
   more than its capacity, or than the pool and the slots that outlived their global permits.
   */
  lemma {:induction false} TableStaysBounded(global: nat, perClient: Option<nat>, start: Instant, events: seq<Event>)
    ensures var s := New(global, perClient, start);
            && Run(s, events).limit == Max(global, 1)
            && |Run(s, events).loads| <= Max(MAX_TRACKED_CLIENTS, Max(global, 1) + MostStragglers(s, events)) + 1
  {
    if events != [] {
      var s, before, last := New(global, perClient, start), events[..|events| - 1], events[|events| - 1];
      TableStaysBounded(global, perClient, start, before);
      RunConsistent(global, perClient, start, before);
      SettingsKept(Run(s, before), last);
      if last.Acquire? {
        SlotsAreOutstandingOrStraggling(Run(s, before));
        ArrivalBoundsTable(Run(s, before), last.client, last.now);
        AcquireKeepsSettings(Run(s, before), last.client, last.now, last.gaps);
      }
    }
  }

  /** When no slot outlives its global permit, that is its capacity or the pool. */
  lemma {:induction false} OrderlyTableStaysBounded(global: nat, perClient: Option<nat>, start: Instant,
                                                    events: seq<Event>)
    requires forall k: nat | k < |events| :: Stragglers(Run(New(global, perClient, start), events[..k])) == {}
    ensures |Run(New(global, perClient, start), events).loads| <= Max(MAX_TRACKED_CLIENTS, Max(global, 1)) + 1
  {
    NoStragglers(New(global, perClient, start), events);
    TableStaysBounded(global, perClient, start, events);
  }

  lemma {:induction false} NoStragglers(s: State, events: seq<Event>)
    requires forall k: nat | k < |events| :: Stragglers(Run(s, events[..k])) == {}
    ensures MostStragglers(s, events) == 0
  {
    if events != [] {
      var n := |events| - 1;
      forall k: nat | k < n ensures Stragglers(Run(s, events[..n][..k])) == {} {
        assert events[..n][..k] == events[..k];
      }
      NoStragglers(s, events[..n]);
    }
  }

  // ------------------------------------------------- global permits returned before slots

  const NO_GAPS := Gaps([], [], [])

  /** Clients 0, 1, 2 ... each ask once, and return the global permit while still holding the slot. */
  function Stragglings(n: nat): seq<Event> {
    if n == 0 then [] else Stragglings(n - 1) + [Acquire(n - 1, 0, NO_GAPS), Return(ReleaseGlobal(n - 1))]
  }

  function InFlight(client: Ip): int { 1 }

  /** A pool of one after `n` of them: every client tracked, every slot out, the permit free again. */
  function Straggling(n: nat): State {
    State(1, None, 1, 1,
          map i: nat | i < n :: Load(i, 0), 0,
          map i: nat | i < n :: InFlight(i),
          map i: nat | i < n :: Permit(i, i, true, false),
          n, n)
  }

  lemma StragglingPrunesNothing(n: nat)
    ensures Pruned(Straggling(n), 0).loads == Straggling(n).loads && Pruned(Straggling(n), 0).prunedAt == 0
  {
  }

  lemma StragglerIsAdmitted(n: nat)
    ensures TryAcquire(Straggling(n), n, 0, NO_GAPS).1.Admitted?
    ensures Returned(TryAcquire(Straggling(n), n, 0, NO_GAPS).0, ReleaseGlobal(n)) == Straggling(n + 1)
  {
    var s := Straggling(n);
    StragglingPrunesNothing(n);
    var (s1, counter, active) := Shared(s, n, 0);
    assert s1 == s.(loads := s.loads[n := Load(n, 0)], counters := s.counters[n := 0], nextCounter := n + 1);
    assert counter == n && active >= 1 by { assert n in s1.loads; }
    assert AdmissionLimit(s1, active) == 1;
    var s4 := Adjusted(s1, n, 1);
    var s6 := TakeGlobal(s4, n, n).0;
    assert TryAcquire(s, n, 0, NO_GAPS) == TakeGlobal(s4, n, n);
    var s7 := Returned(s6, ReleaseGlobal(n));
    assert s7.loads == Straggling(n + 1).loads;
    assert s7.counters == Straggling(n + 1).counters;
    assert s7.permits == Straggling(n + 1).permits;
  }

  predicate TwoSteps(s: State, a: Event, b: Event, end: State) { Step(Step(s, a), b) == end }

  lemma StragglerSteps(n: nat)
    ensures TwoSteps(Straggling(n), Acquire(n, 0, NO_GAPS), Return(ReleaseGlobal(n)), Straggling(n + 1))
  {
    StragglerIsAdmitted(n);
  }

  lemma RunTwo(s: State, before: seq<Event>, middle: State, a: Event, b: Event, end: State)
    requires Run(s, before) == middle && TwoSteps(middle, a, b, end)
    ensures Run(s, before + [a, b]) == end
  {
    var one, two := before + [a], before + [a, b];
    assert one[..|one| - 1] == before && two[..|two| - 1] == one;
  }

  lemma NoneStraggling()
    ensures New(1, None, 0) == Straggling(0)
  {
    assert Straggling(0).loads == map[] && Straggling(0).counters == map[] && Straggling(0).permits == map[];
  }

  ghost predicate Reaches(events: seq<Event>, s: State) { Run(Straggling(0), events) == s }

  lemma ReachesNext(events: seq<Event>, n: nat)
    requires Reaches(events, Straggling(n))
    ensures Reaches(events + [Acquire(n, 0, NO_GAPS), Return(ReleaseGlobal(n))], Straggling(n + 1))
  {
    StragglerSteps(n);
    RunTwo(Straggling(0), events, Straggling(n), Acquire(n, 0, NO_GAPS), Return(ReleaseGlobal(n)), Straggling(n + 1));
  }

  lemma {:induction false} StragglingsRun(n: nat)
    ensures Reaches(Stragglings(n), Straggling(n))
  {
    if n > 0 {
      StragglingsRun(n - 1);
      ReachesNext(Stragglings(n - 1), n - 1);
    }
  }

  lemma {:induction false} TracksThemAll(n: nat)
    ensures |Straggling(n).loads| == n
  {
    var loads := Straggling(n).loads;
    if n == 0 {
      assert loads == map[];
    } else {
      TracksThemAll(n - 1);
      assert loads == Straggling(n - 1).loads[n - 1 := Load(n - 1, 0)];
    }
  }

  /** So the capacity or the pool alone is no bound: the table outgrows any size. */
  lemma TableOutgrowsThePool(size: nat)
    ensures |Run(New(1, None, 0), Stragglings(size + 1)).loads| > size
  {
    NoneStraggling();
    StragglingsRun(size + 1);
    TracksThemAll(size + 1);
  }
}
