/** What admission control keeps over every run, and how far one client's burst can reach. */
module AdmissionSafety {
  import opened Basics
  import opened Admission

  // ------------------------------------------------------------------------ bookkeeping

  /** Permits of `client` whose slot is still out. */
  function LiveSlots(s: State, client: Ip): set<PermitId> {
    set p | p in s.permits && s.permits[p].slotHeld && s.permits[p].client == client
  }

  function Outstanding(s: State): set<PermitId> {
    set p | p in s.permits && s.permits[p].globalHeld
  }

  /** A slot claimed by the acquire in progress, not yet part of a permit. */
  type Extra = Option<Ip>

  ghost predicate PermitOk(s: State, p: PermitId)
    requires p in s.permits
  {
    && p < s.nextPermit
    && (s.permits[p].slotHeld ==>
          s.permits[p].client in s.loads && s.loads[s.permits[p].client].counter == s.permits[p].counter)
  }

  ghost predicate LoadOk(s: State, extra: Extra, ip: Ip)
    requires ip in s.loads
  {
    && s.loads[ip].counter in s.counters && s.loads[ip].counter < s.nextCounter
    && s.counters[s.loads[ip].counter] == |LiveSlots(s, ip)| + (if extra == Some(ip) then 1 else 0)
  }

  /**
   Free plus outstanding permits make the limit; every tracked counter counts exactly its
   client's live slots; every live slot counts against the tracked counter.
   */
  ghost predicate Consistent(s: State, extra: Extra) {
    && s.free + |Outstanding(s)| == s.limit && s.free >= 0
    && (extra.Some? ==> extra.value in s.loads)
    && (forall p <- s.permits :: PermitOk(s, p))
    && (forall ip <- s.loads :: LoadOk(s, extra, ip))
    && (forall a <- s.loads, b <- s.loads | a != b :: s.loads[a].counter != s.loads[b].counter)
  }

  lemma NewConsistent(global: nat, perClient: Option<nat>, now: Instant)
    ensures Consistent(New(global, perClient, now), None)
  {
    assert Outstanding(New(global, perClient, now)) == {};
  }

  lemma LiveSlotsAfter(s: State, r: Release, ip: Ip)
    ensures var taken := r.permit in s.permits && s.permits[r.permit].slotHeld && !r.ReleaseGlobal?
                         && s.permits[r.permit].client == ip;
            LiveSlots(Returned(s, r), ip) == if taken then LiveSlots(s, ip) - {r.permit} else LiveSlots(s, ip)
  {
  }

  lemma OutstandingAfter(s: State, r: Release)
    ensures var taken := r.permit in s.permits && s.permits[r.permit].globalHeld && !r.ReleaseSlot?;
            Outstanding(Returned(s, r)) == if taken then Outstanding(s) - {r.permit} else Outstanding(s)
  {
  }

  lemma ReturnedConsistent(s: State, extra: Extra, r: Release)
    requires Consistent(s, extra)
    ensures Consistent(Returned(s, r), extra)
  {
    var s' := Returned(s, r);
    OutstandingAfter(s, r);
    forall ip <- s'.loads ensures LoadOk(s', extra, ip) { ReturnedLoadOk(s, extra, r, ip); }
    forall p <- s'.permits ensures PermitOk(s', p) { ReturnedPermitOk(s, r, p); }
  }

  lemma ReturnedLoadOk(s: State, extra: Extra, r: Release, ip: Ip)
    requires Consistent(s, extra) && ip in s.loads
    ensures LoadOk(Returned(s, r), extra, ip)
  {
    assert LoadOk(s, extra, ip);
    LiveSlotsAfter(s, r, ip);
    if r.permit in s.permits {
      assert PermitOk(s, r.permit);
      assert s.permits[r.permit].slotHeld && s.permits[r.permit].client != ip ==>
          s.loads[s.permits[r.permit].client].counter != s.loads[ip].counter;
    }
  }

  lemma ReturnedPermitOk(s: State, r: Release, p: PermitId)
    requires p in s.permits && PermitOk(s, p)
    ensures p in Returned(s, r).permits && PermitOk(Returned(s, r), p)
  {
  }

  /** Releases change no setting and no table entry; they only give back. */
  ghost predicate GivesBack(s: State, s': State) {
    && s'.loads == s.loads && s'.limit == s.limit && s'.fixed == s.fixed && s'.reserve == s.reserve
    && s'.free >= s.free && s'.nextPermit == s.nextPermit
    && (forall ip <- s.loads :: Value(s'.counters, s.loads[ip].counter) <= Value(s.counters, s.loads[ip].counter))
  }

  lemma ReturnedGivesBack(s: State, r: Release)
    ensures GivesBack(s, Returned(s, r))
  {
  }

  lemma {:induction false} ReturnedAllConsistent(s: State, extra: Extra, rs: seq<Release>)
    requires Consistent(s, extra)
    ensures Consistent(ReturnedAll(s, rs), extra) && GivesBack(s, ReturnedAll(s, rs))
  {
    if rs != [] {
      var before := ReturnedAll(s, rs[..|rs| - 1]);
      ReturnedAllConsistent(s, extra, rs[..|rs| - 1]);
      ReturnedConsistent(before, extra, rs[|rs| - 1]);
      ReturnedGivesBack(before, rs[|rs| - 1]);
    }
  }

  /** Pruning never drops a counter in use, so what it drops has no live slot. */
  lemma PrunedConsistent(s: State, now: Instant)
    requires Consistent(s, None)
    ensures Consistent(Pruned(s, now), None)
  {
    var s' := Pruned(s, now);
    assert Outstanding(s') == Outstanding(s);
    forall ip <- s.loads
      ensures LiveSlots(s', ip) == LiveSlots(s, ip)
      ensures LoadOk(s, None, ip)
      ensures ip !in s'.loads ==> LiveSlots(s, ip) == {}
    {
    }
    forall p <- s'.permits ensures PermitOk(s', p) {
      assert PermitOk(s, p);
      if s.permits[p].slotHeld { assert p in LiveSlots(s, s.permits[p].client); }
    }
  }

  lemma UntrackedHasNoSlots(s: State, ip: Ip)
    requires Consistent(s, None) && ip !in s.loads
    ensures LiveSlots(s, ip) == {}
  {
    forall p <- s.permits ensures s.permits[p].slotHeld ==> s.permits[p].client in s.loads { assert PermitOk(s, p); }
  }

  lemma SeenConsistent(s: State, client: Ip, now: Instant)
    requires Consistent(s, None)
    ensures Consistent(Seen(s, client, now), None)
  {
    var s' := Seen(s, client, now);
    assert Outstanding(s') == Outstanding(s);
    forall p <- s.permits ensures PermitOk(s', p) { assert PermitOk(s, p); }
    forall ip <- s'.loads ensures LoadOk(s', None, ip) {
      assert LiveSlots(s', ip) == LiveSlots(s, ip);
      if ip in s.loads {
        assert LoadOk(s, None, ip);
      } else {
        UntrackedHasNoSlots(s, ip);
      }
    }
    forall a <- s.loads ensures s.loads[a].counter < s.nextCounter { assert LoadOk(s, None, a); }
  }

  lemma SharedConsistent(s: State, client: Ip, now: Instant)
    requires Consistent(s, None)
    ensures Consistent(Shared(s, client, now).0, None)
  {
    PrunedConsistent(s, now);
    SeenConsistent(Pruned(s, now), client, now);
  }

  lemma ClaimedConsistent(s: State, client: Ip)
    requires Consistent(s, None) && client in s.loads
    ensures Consistent(Adjusted(s, s.loads[client].counter, 1), Some(client))
  {
    var s' := Adjusted(s, s.loads[client].counter, 1);
    assert Outstanding(s') == Outstanding(s);
    forall p <- s.permits ensures PermitOk(s', p) { assert PermitOk(s, p); }
    forall ip <- s.loads ensures LoadOk(s', Some(client), ip) {
      assert LoadOk(s, None, ip);
      assert LiveSlots(s', ip) == LiveSlots(s, ip);
    }
  }

  /** A refusal returns its slot; an admission turns it into a permit. */
  lemma TakenConsistent(s: State, client: Ip)
    requires Consistent(s, Some(client))
    ensures Consistent(TakeGlobal(s, client, s.loads[client].counter).0, None)
  {
    var s' := TakeGlobal(s, client, s.loads[client].counter).0;
    forall p <- s.permits ensures PermitOk(s, p) {}
    if s.free > 0 {
      assert Outstanding(s') == Outstanding(s) + {s.nextPermit};
      assert s.nextPermit !in Outstanding(s);
    } else {
      assert Outstanding(s') == Outstanding(s);
    }
    forall ip <- s'.loads ensures LoadOk(s', None, ip) {
      assert LoadOk(s, Some(client), ip);
      if s.free > 0 && ip == client {
        assert LiveSlots(s', ip) == LiveSlots(s, ip) + {s.nextPermit};
      } else {
        assert LiveSlots(s', ip) == LiveSlots(s, ip);
      }
    }
    forall p <- s'.permits ensures PermitOk(s', p) {
      if p in s.permits { assert PermitOk(s, p); }
    }
  }

  /** The stages of one acquire, from the table lookup to the permit. */
  lemma AcquireConsistent(s: State, client: Ip, now: Instant, gaps: Gaps)
    requires Consistent(s, None)
    ensures Consistent(TryAcquire(s, client, now, gaps).0, None)
  {
    var (s1, counter, active) := Shared(s, client, now);
    SharedConsistent(s, client, now);
    var s2 := ReturnedAll(s1, gaps.afterShare);
    ReturnedAllConsistent(s1, None, gaps.afterShare);
    var s3 := ReturnedAll(s2, gaps.beforeClaim);
    ReturnedAllConsistent(s2, None, gaps.beforeClaim);
    if CanClaim(s3, counter, AdmissionLimit(s2, active)) {
      var s4 := Adjusted(s3, counter, 1);
      ClaimedConsistent(s3, client);
      ReturnedAllConsistent(s4, Some(client), gaps.beforeGlobal);
      TakenConsistent(ReturnedAll(s4, gaps.beforeGlobal), client);
    }
  }

  lemma StepConsistent(s: State, e: Event)
    requires Consistent(s, None)
    ensures Consistent(Step(s, e), None)
  {
    match e
    case Acquire(client, now, gaps) => AcquireConsistent(s, client, now, gaps);
    case Return(r) => ReturnedConsistent(s, None, r);
  }

  /**
   Over every run of serial acquires with releases anywhere between their steps: permits are
   conserved, table counters equal live slots, and no counter underflows.
   */
  lemma {:induction false} RunConsistent(global: nat, perClient: Option<nat>, start: Instant, events: seq<Event>)
    ensures Consistent(Run(New(global, perClient, start), events), None)
  {
    if events == [] {
      NewConsistent(global, perClient, start);
    } else {
      RunConsistent(global, perClient, start, events[..|events| - 1]);
      StepConsistent(Run(New(global, perClient, start), events[..|events| - 1]), events[|events| - 1]);
    }
  }

  /** Every held slot can be given back: the counter it goes back to is positive. */
  lemma NoUnderflow(s: State, p: PermitId)
    requires Consistent(s, None) && p in s.permits && s.permits[p].slotHeld
    ensures Value(s.counters, s.permits[p].counter) >= 1
  {
    assert PermitOk(s, p);
    var ip := s.permits[p].client;
    assert LoadOk(s, None, ip);
    assert p in LiveSlots(s, ip);
  }

  // ----------------------------------------------------------------------- fixed ceiling

  ghost predicate UnderCeiling(s: State) {
    s.fixed.Some? ==> forall ip <- s.loads :: |LiveSlots(s, ip)| <= s.fixed.value
  }

  lemma AcquireUnderCeiling(s: State, client: Ip, now: Instant, gaps: Gaps)
    requires Consistent(s, None) && UnderCeiling(s)
    ensures UnderCeiling(TryAcquire(s, client, now, gaps).0)
  {
    var (s1, counter, active) := Shared(s, client, now);
    SharedConsistent(s, client, now);
    var s2 := ReturnedAll(s1, gaps.afterShare);
    ReturnedAllConsistent(s1, None, gaps.afterShare);
    var s3 := ReturnedAll(s2, gaps.beforeClaim);
    ReturnedAllConsistent(s2, None, gaps.beforeClaim);
    SharedKeepsSlots(s, client, now);
    assert UnderCeiling(s1);
    assert UnderCeiling(s3) by { CountersBoundSlots(s1, None, s3, None); }
    if CanClaim(s3, counter, AdmissionLimit(s2, active)) { ClaimUnderCeiling(s3, client, gaps.beforeGlobal); }
  }

  /** A claim made below the ceiling stays below it, whatever is returned before the permit is taken. */
  lemma ClaimUnderCeiling(s: State, client: Ip, gap: seq<Release>)
    requires Consistent(s, None) && UnderCeiling(s) && client in s.loads
    requires s.fixed.Some? ==> CanClaim(s, s.loads[client].counter, s.fixed.value)
    ensures UnderCeiling(TakeGlobal(ReturnedAll(Adjusted(s, s.loads[client].counter, 1), gap), client,
                                    s.loads[client].counter).0)
  {
    var counter := s.loads[client].counter;
    var s4 := Adjusted(s, counter, 1);
    ClaimedConsistent(s, client);
    var s5 := ReturnedAll(s4, gap);
    ReturnedAllConsistent(s4, Some(client), gap);
    var s6 := TakeGlobal(s5, client, counter).0;
    TakenConsistent(s5, client);
    if s.fixed.Some? {
      forall ip <- s6.loads ensures |LiveSlots(s6, ip)| <= s6.fixed.value {
        assert LoadOk(s, None, ip) && LoadOk(s4, Some(client), ip) && LoadOk(s5, Some(client), ip) &&
               LoadOk(s6, None, ip);
      }
    }
  }

  lemma SharedKeepsSlots(s: State, client: Ip, now: Instant)
    requires Consistent(s, None)
    ensures var s1 := Shared(s, client, now).0;
            && s1.fixed == s.fixed && s1.permits == s.permits
            && (forall ip :: LiveSlots(s1, ip) == LiveSlots(s, ip))
            && (client !in s.loads ==> LiveSlots(s, client) == {})
            && (forall ip <- s1.loads :: ip in s.loads || ip == client)
  {
    var s1 := Shared(s, client, now).0;
    assert s1.permits == s.permits;
    if client !in s.loads {
      UntrackedHasNoSlots(s, client);
    }
  }

  lemma CountersBoundSlots(s: State, extra: Extra, s': State, extra': Extra)
    requires Consistent(s, extra) && Consistent(s', extra') && extra == extra' && s'.loads == s.loads
    requires GivesBack(s, s')
    ensures forall ip <- s.loads :: |LiveSlots(s', ip)| <= |LiveSlots(s, ip)|
  {
    forall ip <- s.loads ensures |LiveSlots(s', ip)| <= |LiveSlots(s, ip)| {
      assert LoadOk(s, extra, ip) && LoadOk(s', extra', ip);
    }
  }

  lemma StepUnderCeiling(s: State, e: Event)
    requires Consistent(s, None) && UnderCeiling(s)
    ensures UnderCeiling(Step(s, e)) && Step(s, e).fixed == s.fixed
  {
    match e
    case Acquire(client, now, gaps) =>
      AcquireUnderCeiling(s, client, now, gaps);
      SettingsKept(s, e);
    case Return(r) =>
      ReturnedConsistent(s, None, r);
      forall ip <- s.loads ensures |LiveSlots(Returned(s, r), ip)| <= |LiveSlots(s, ip)| { LiveSlotsAfter(s, r, ip); }
  }

  lemma {:induction false} ReturnedAllSettings(s: State, rs: seq<Release>)
    ensures var s' := ReturnedAll(s, rs);
            s'.limit == s.limit && s'.fixed == s.fixed && s'.reserve == s.reserve && s'.loads == s.loads
  {
    if rs != [] { ReturnedAllSettings(s, rs[..|rs| - 1]); }
  }

  lemma AcquireKeepsSettings(s: State, client: Ip, now: Instant, gaps: Gaps)
    ensures var s' := TryAcquire(s, client, now, gaps).0;
            && s'.limit == s.limit && s'.fixed == s.fixed && s'.reserve == s.reserve
            && s'.loads == Shared(s, client, now).0.loads
  {
    var (s1, counter, active) := Shared(s, client, now);
    var s2 := ReturnedAll(s1, gaps.afterShare);
    var s3 := ReturnedAll(s2, gaps.beforeClaim);
    ReturnedAllSettings(s1, gaps.afterShare);
    ReturnedAllSettings(s2, gaps.beforeClaim);
    ClaimKeepsSettings(s3, client, counter, gaps.beforeGlobal);
  }

  lemma ClaimKeepsSettings(s: State, client: Ip, counter: CounterId, gap: seq<Release>)
    ensures var s' := TakeGlobal(ReturnedAll(Adjusted(s, counter, 1), gap), client, counter).0;
            s'.limit == s.limit && s'.fixed == s.fixed && s'.reserve == s.reserve && s'.loads == s.loads
  {
    ReturnedAllSettings(Adjusted(s, counter, 1), gap);
  }

  lemma SettingsKept(s: State, e: Event)
    ensures var s' := Step(s, e); s'.limit == s.limit && s'.fixed == s.fixed && s'.reserve == s.reserve
  {
    if e.Acquire? { AcquireKeepsSettings(s, e.client, e.now, e.gaps); }
  }

  /** An operator-set ceiling is never exceeded, by any client, in any run. */
  lemma {:induction false} CeilingNeverExceeded(
      global: nat, perClient: nat, start: Instant, events: seq<Event>)
    ensures var s := Run(New(global, Some(perClient), start), events);
            && s.fixed == Some(Clamp(perClient, 1, Max(global, 1)))
            && UnderCeiling(s)
  {
    if events != [] {
      var before := events[..|events| - 1];
      CeilingNeverExceeded(global, perClient, start, before);
      RunConsistent(global, Some(perClient), start, before);
      StepUnderCeiling(Run(New(global, Some(perClient), start), before), events[|events| - 1]);
    }
  }
}
