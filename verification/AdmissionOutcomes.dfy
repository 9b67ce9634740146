/** When a query is admitted, in numbers, and which clients count as active. */
module AdmissionOutcomes {
  import opened Basics
  import opened Admission
  import opened AdmissionSafety
  import opened AdmissionShares

  // --------------------------------------------------------------------------- settings

  /** A quarter of the pool is reserved, at least one permit; a fixed ceiling lies within the pool. */
  lemma SettingsInNumbers(global: nat, perClient: Option<nat>, now: Instant)
    ensures var s := New(global, perClient, now);
            && s.limit == (if global == 0 then 1 else global) && s.free == s.limit
            && (if s.limit < 4 then s.reserve == 1 else 4 * s.reserve <= s.limit < 4 * (s.reserve + 1))
            && (s.fixed.Some? <==> perClient.Some?)
            && (s.fixed.Some? ==>
                  1 <= s.fixed.value <= s.limit && (1 <= perClient.value <= s.limit ==> s.fixed == perClient))
            && Configured(s)
  {
  }

  // ------------------------------------------------------------------------- one acquire

  lemma ShareInNumbers(limit: nat, active: nat, held: nat)
    requires active >= 1
    ensures held >= Share(limit, active) <==> held >= limit || (held >= 64 && (held + 1) * active > limit)
  {
    var q := limit / active;
    assert limit == q * active + limit % active;
    if held >= q {
      MulLe(active, q + 1, held + 1);
      assert active * (held + 1) == (held + 1) * active && active * (q + 1) == q * active + active;
    } else {
      MulLe(active, held + 1, q);
      assert active * (held + 1) == (held + 1) * active && active * q == q * active;
    }
    assert held >= q <==> (held + 1) * active > limit;
    DivAntitone(limit, 1, active);
  }

  /** What the client holds when it claims its slot; what is free when its limit is set, and when it takes a permit. */
  datatype Reading = Reading(active: nat, held: nat, freeAtLimit: int, freeAtTake: int)

  ghost function Read(s: State, client: Ip, now: Instant, gaps: Gaps): Reading {
    var (s1, counter, active) := Shared(s, client, now);
    var s2 := ReturnedAll(s1, gaps.afterShare);
    var s3 := ReturnedAll(s2, gaps.beforeClaim);
    var s5 := ReturnedAll(Adjusted(s3, counter, 1), gaps.beforeGlobal);
    Reading(active, |LiveSlots(s3, client)|, s2.free, s5.free)
  }

  /** The client has all it may have: the ceiling, or the pool while more than the reserve is free, or its share. */
  predicate HasItsLimit(s: State, r: Reading) {
    if s.fixed.Some? then r.held >= s.fixed.value
    else r.held >= s.limit || (r.freeAtLimit <= s.reserve && r.held >= 64 && (r.held + 1) * r.active > s.limit)
  }

  lemma ReadHolds(s: State, client: Ip, now: Instant, gaps: Gaps)
    requires Consistent(s, None)
    ensures var (s1, counter, active) := Shared(s, client, now);
            var s2 := ReturnedAll(s1, gaps.afterShare);
            var s3 := ReturnedAll(s2, gaps.beforeClaim);
            && active >= 1 && Value(s3.counters, counter) == Read(s, client, now, gaps).held
            && s2.limit == s.limit && s2.reserve == s.reserve && s2.fixed == s.fixed
  {
    StagesBeforeClaim(s, client, now, gaps);
    var s1 := Shared(s, client, now).0;
    var s3 := ReturnedAll(ReturnedAll(s1, gaps.afterShare), gaps.beforeClaim);
    assert LoadOk(s3, None, client);
    SubsetSize({client}, s1.loads.Keys);
  }

  /**
   Exactly when a query is admitted and why it is refused, whatever returns meanwhile: refused for the
   client if it has its limit, for the pool if it has not and no permit is left, and admitted otherwise.
   */
  lemma OutcomeIff(s: State, client: Ip, now: Instant, gaps: Gaps)
    requires Consistent(s, None)
    ensures var outcome, r := TryAcquire(s, client, now, gaps).1, Read(s, client, now, gaps);
            && (outcome == Refused(ClientLimit) <==> HasItsLimit(s, r))
            && (outcome == Refused(GlobalLimit) <==> !HasItsLimit(s, r) && r.freeAtTake <= 0)
            && (outcome.Admitted? <==> !HasItsLimit(s, r) && r.freeAtTake > 0)
  {
    ReadHolds(s, client, now, gaps);
    var (s1, counter, active) := Shared(s, client, now);
    var s2 := ReturnedAll(s1, gaps.afterShare);
    var s3 := ReturnedAll(s2, gaps.beforeClaim);
    var held := Read(s, client, now, gaps).held;
    ShareInNumbers(s.limit, active, held);
    assert CanClaim(s3, counter, AdmissionLimit(s2, active)) <==> !HasItsLimit(s, Read(s, client, now, gaps));
  }

  /** Borrowing: while more than the reserve is free, a client short of the whole pool is always admitted. */
  lemma BorrowerIsAdmitted(s: State, client: Ip, now: Instant, gaps: Gaps)
    requires Consistent(s, None) && s.fixed.None?
    requires s.free > s.reserve && |LiveSlots(s, client)| < s.limit
    ensures TryAcquire(s, client, now, gaps).1.Admitted?
  {
    OutcomeIff(s, client, now, gaps);
    Stages(s, client, now, gaps);
    SharedKeepsSlots(s, client, now);
    ReadHolds(s, client, now, gaps);
    assert LoadOk(Shared(s, client, now).0, None, client);
  }

  // ------------------------------------------------------------------------ who is active

  predicate Prunes(s: State, now: Instant) { |s.loads| > 1024 || Since(now, s.prunedAt) >= SECOND }

  /**
   Which clients an arrival finds active: the one arriving, and of the others all that were, less those
   with nothing in flight that a pruning finds idle for a minute, or finds at all in an overfull table.
   */
  lemma ArrivalTracks(s: State, client: Ip, now: Instant, ip: Ip)
    requires Consistent(s, None)
    ensures var loads := Shared(s, client, now).0.loads;
            && (ip in loads <==>
                  || ip == client
                  || (ip in s.loads
                      && (|| !Prunes(s, now)
                          || LiveSlots(s, ip) != {}
                          || (|s.loads| <= 1024 && Since(now, s.loads[ip].lastSeen) < 60 * SECOND))))
            && loads[client].lastSeen == now
            && (ip in loads && ip != client ==> loads[ip] == s.loads[ip])
            && Shared(s, client, now).0.prunedAt == (if Prunes(s, now) then now else s.prunedAt)
  {
    if ip in s.loads { assert LoadOk(s, None, ip); }
  }

  /** When the client last asked. */
  function LastAsked(events: seq<Event>, ip: Ip): Option<Instant> {
    if events == [] then None
    else
      var last := events[|events| - 1];
      if last.Acquire? && last.client == ip then Some(last.now) else LastAsked(events[..|events| - 1], ip)
  }

  lemma {:induction false} ReturnedAllLoads(s: State, rs: seq<Release>)
    ensures ReturnedAll(s, rs).loads == s.loads
  {
    if rs != [] { ReturnedAllLoads(s, rs[..|rs| - 1]); }
  }

  lemma AcquireLoads(s: State, client: Ip, now: Instant, gaps: Gaps)
    ensures TryAcquire(s, client, now, gaps).0.loads == Shared(s, client, now).0.loads
  {
    var (s1, counter, active) := Shared(s, client, now);
    var s2 := ReturnedAll(s1, gaps.afterShare);
    var s3 := ReturnedAll(s2, gaps.beforeClaim);
    ReturnedAllLoads(s1, gaps.afterShare);
    ReturnedAllLoads(s2, gaps.beforeClaim);
    ReturnedAllLoads(Adjusted(s3, counter, 1), gaps.beforeGlobal);
  }

  /** Over every run, a tracked client was last seen when it last asked. */
  lemma {:induction false} SeenWhenItLastAsked(global: nat, perClient: Option<nat>, start: Instant, events: seq<Event>,
                                               ip: Ip)
    requires ip in Run(New(global, perClient, start), events).loads
    ensures LastAsked(events, ip) == Some(Run(New(global, perClient, start), events).loads[ip].lastSeen)
  {
    var s := New(global, perClient, start);
    if events != [] {
      var before, last := events[..|events| - 1], events[|events| - 1];
      if last.Acquire? {
        AcquireLoads(Run(s, before), last.client, last.now, last.gaps);
        RunConsistent(global, perClient, start, before);
        ArrivalTracks(Run(s, before), last.client, last.now, ip);
        if ip != last.client { SeenWhenItLastAsked(global, perClient, start, before, ip); }
      } else {
        SeenWhenItLastAsked(global, perClient, start, before, ip);
      }
    }
  }
}
