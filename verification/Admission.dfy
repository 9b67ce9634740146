/**
 Admission control of src/dns.rs: a global pool of permits, and per client a shared in-flight
 counter bounded by a share of the pool. Acquires are serial; permits go back at any moment.
 */
module Admission {
  import opened Basics

  type Ip = nat
  /** Names one reference-counted in-flight counter. */
  type CounterId = nat
  type PermitId = nat

  const MIN_CLIENT_SHARE: nat := 64
  const CLIENT_IDLE_AFTER: nat := 60 * SECOND
  const BORROW_RESERVE_DIVISOR: nat := 4
  const PRUNE_INTERVAL: nat := SECOND
  const MAX_TRACKED_CLIENTS: nat := 1_024

  datatype Load = Load(counter: CounterId, lastSeen: Instant)

  /** An admitted query: the share slot and the global permit it has not yet returned. */
  datatype Permit = Permit(client: Ip, counter: CounterId, slotHeld: bool, globalHeld: bool)

  datatype Refusal = GlobalLimit | ClientLimit

  datatype Outcome = Admitted(permit: PermitId) | Refused(why: Refusal)

  datatype Release = ReleaseSlot(permit: PermitId) | ReleaseGlobal(permit: PermitId) | ReleaseWhole(permit: PermitId)

  /** Releases falling between the steps of one acquire. */
  datatype Gaps = Gaps(afterShare: seq<Release>, beforeClaim: seq<Release>, beforeGlobal: seq<Release>)

  datatype State = State(
    limit: nat,
    fixed: Option<nat>,
    reserve: nat,
    free: int,
    loads: map<Ip, Load>,
    prunedAt: Instant,
    counters: map<CounterId, int>,
    permits: map<PermitId, Permit>,
    nextCounter: CounterId,
    nextPermit: PermitId)

  function Clamp(n: nat, low: nat, high: nat): nat {
    if n < low then low else if n > high then high else n
  }

  // -------------------------------------------------------------------- specification

  function New(global: nat, perClient: Option<nat>, now: Instant): State {
    var limit := Max(global, 1);
    State(limit,
          match perClient case None => None case Some(n) => Some(Clamp(n, 1, limit)),
          Max(limit / BORROW_RESERVE_DIVISOR, 1),
          limit, map[], now, map[], map[], 0, 0)
  }

  /** The share of the pool when `active` clients are using it. */
  function Share(limit: nat, active: nat): nat {
    Clamp(limit / Max(active, 1), Min(MIN_CLIENT_SHARE, limit), limit)
  }

  function LimitFor(s: State, active: nat): nat {
    if s.fixed.Some? then s.fixed.value else Share(s.limit, active)
  }

  /** While more than the reserve is free, a client may borrow up to the whole pool. */
  function AdmissionLimit(s: State, active: nat): nat {
    if s.fixed.None? && s.free > s.reserve then s.limit else LimitFor(s, active)
  }

  /** The in-flight count a counter shows. */
  function Value(counters: map<CounterId, int>, counter: CounterId): int {
    if counter in counters then counters[counter] else 0
  }

  predicate OverCapacity(s: State) { |s.loads| > MAX_TRACKED_CLIENTS }

  predicate Survives(s: State, load: Load, now: Instant) {
    Value(s.counters, load.counter) > 0 || (!OverCapacity(s) && Since(now, load.lastSeen) < CLIENT_IDLE_AFTER)
  }

  function Pruned(s: State, now: Instant): State {
    if !OverCapacity(s) && Since(now, s.prunedAt) < PRUNE_INTERVAL then s
    else s.(loads := map ip | ip in s.loads && Survives(s, s.loads[ip], now) :: s.loads[ip], prunedAt := now)
  }

  /** The table after the client's entry has been found or made, and marked as just seen. */
  function Seen(s: State, client: Ip, now: Instant): State {
    if client in s.loads then s.(loads := s.loads[client := s.loads[client].(lastSeen := now)])
    else s.(loads := s.loads[client := Load(s.nextCounter, now)],
            counters := s.counters[s.nextCounter := 0],
            nextCounter := s.nextCounter + 1)
  }

  function ClientShare(s: State, client: Ip, now: Instant): State { Seen(Pruned(s, now), client, now) }

  function Adjusted(s: State, counter: CounterId, change: int): State {
    s.(counters := s.counters[counter := Value(s.counters, counter) + change])
  }

  function Returned(s: State, r: Release): State {
    if r.permit !in s.permits then s
    else
      var p := s.permits[r.permit];
      var slot := (r.ReleaseSlot? || r.ReleaseWhole?) && p.slotHeld;
      var global := (r.ReleaseGlobal? || r.ReleaseWhole?) && p.globalHeld;
      var s1 := if slot then Adjusted(s, p.counter, -1) else s;
      s1.(permits := s.permits[r.permit := p.(slotHeld := p.slotHeld && !slot, globalHeld := p.globalHeld && !global)],
          free := s.free + (if global then 1 else 0))
  }

  function ReturnedAll(s: State, rs: seq<Release>): State {
    if rs == [] then s else Returned(ReturnedAll(s, rs[..|rs| - 1]), rs[|rs| - 1])
  }

  predicate CanClaim(s: State, counter: CounterId, bound: nat) {
    Value(s.counters, counter) < bound
  }

  /** Taking a global permit for a claimed slot, or giving the slot back. */
  function TakeGlobal(s: State, client: Ip, counter: CounterId): (State, Outcome) {
    if s.free <= 0 then (Adjusted(s, counter, -1), Refused(GlobalLimit))
    else
      (s.(free := s.free - 1,
          permits := s.permits[s.nextPermit := Permit(client, counter, true, true)],
          nextPermit := s.nextPermit + 1),
       Admitted(s.nextPermit))
  }

  /** The client's counter and the number of tracked clients, as the acquire read them. */
  function Shared(s: State, client: Ip, now: Instant): (State, CounterId, nat) {
    var s1 := ClientShare(s, client, now);
    (s1, s1.loads[client].counter, |s1.loads|)
  }

  function TryAcquire(s: State, client: Ip, now: Instant, gaps: Gaps): (State, Outcome) {
    var (s1, counter, active) := Shared(s, client, now);
    var s2 := ReturnedAll(s1, gaps.afterShare);
    var bound := AdmissionLimit(s2, active);
    var s3 := ReturnedAll(s2, gaps.beforeClaim);
    if !CanClaim(s3, counter, bound) then (s3, Refused(ClientLimit))
    else TakeGlobal(ReturnedAll(Adjusted(s3, counter, 1), gaps.beforeGlobal), client, counter)
  }

  datatype Event = Acquire(client: Ip, now: Instant, gaps: Gaps) | Return(release: Release)

  function Step(s: State, e: Event): State {
    match e
    case Acquire(client, now, gaps) => TryAcquire(s, client, now, gaps).0
    case Return(release) => Returned(s, release)
  }

  function Run(s: State, events: seq<Event>): State {
    if events == [] then s else Step(Run(s, events[..|events| - 1]), events[|events| - 1])
  }

  // ------------------------------------------------------------------ imperative form

  class QueryPermits {
    const limit: nat
    const fixed: Option<nat>
    const reserve: nat
    var free: int
    var loads: map<Ip, Load>
    var prunedAt: Instant
    var counters: map<CounterId, int>
    var permits: map<PermitId, Permit>
    var nextCounter: CounterId
    var nextPermit: PermitId

    ghost function Now(): State
      reads this
    {
      State(limit, fixed, reserve, free, loads, prunedAt, counters, permits, nextCounter, nextPermit)
    }

    constructor (global: nat, perClient: Option<nat>, now: Instant)
      ensures Now() == New(global, perClient, now)
    {
      var globalLimit := Max(global, 1);
      limit := globalLimit;
      fixed := match perClient case None => None case Some(n) => Some(Clamp(n, 1, globalLimit));
      reserve := Max(globalLimit / BORROW_RESERVE_DIVISOR, 1);
      free := globalLimit;
      loads, prunedAt, counters, permits, nextCounter, nextPermit := map[], now, map[], map[], 0, 0;
    }

    method Prune(now: Instant)
      modifies this`loads, this`prunedAt
      ensures Now() == Pruned(old(Now()), now)
    {
      var overCapacity := |loads| > MAX_TRACKED_CLIENTS;
      if !overCapacity && Since(now, prunedAt) < PRUNE_INTERVAL { return; }
      var kept: map<Ip, Load> := map[];
      var pending := loads.Keys;
      while pending != {}
        invariant pending <= loads.Keys
        invariant kept == map ip | ip in loads && ip !in pending && Survives(old(Now()), loads[ip], now) :: loads[ip]
        decreases |pending|
      {
        var ip :| ip in pending;
        var load := loads[ip];
        if Value(counters, load.counter) > 0 || (!overCapacity && Since(now, load.lastSeen) < CLIENT_IDLE_AFTER) {
          kept := kept[ip := load];
        }
        pending := pending - {ip};
      }
      loads := kept;
      prunedAt := now;
    }

    method ClientShareLocked(client: Ip, now: Instant) returns (counter: CounterId, active: nat)
      modifies this
      ensures (Now(), counter, active) == Shared(old(Now()), client, now)
    {
      Prune(now);
      if client !in loads {
        counters := counters[nextCounter := 0];
        loads := loads[client := Load(nextCounter, now)];
        nextCounter := nextCounter + 1;
      } else {
        loads := loads[client := loads[client].(lastSeen := now)];
      }
      counter, active := loads[client].counter, |loads|;
    }

    method Give(r: Release)
      modifies this`free, this`counters, this`permits
      ensures Now() == Returned(old(Now()), r)
    {
      if r.permit !in permits { return; }
      var p := permits[r.permit];
      if (r.ReleaseGlobal? || r.ReleaseWhole?) && p.globalHeld {
        free := free + 1;
        p := p.(globalHeld := false);
      }
      if (r.ReleaseSlot? || r.ReleaseWhole?) && p.slotHeld {
        counters := counters[p.counter := Value(counters, p.counter) - 1];
        p := p.(slotHeld := false);
      }
      permits := permits[r.permit := p];
    }

    method Interleave(rs: seq<Release>)
      modifies this`free, this`counters, this`permits
      ensures Now() == ReturnedAll(old(Now()), rs)
    {
      for i := 0 to |rs|
        invariant Now() == ReturnedAll(old(Now()), rs[..i])
      {
        assert rs[..i + 1][..i] == rs[..i];
        Give(rs[i]);
      }
      assert rs[..|rs|] == rs;
    }

    /**
     The compare-and-swap retry loop. Releases `rounds[i]` land between the i-th load and its
     swap; the outcome is decided on the counter as it stands after `used` rounds.
     */
    method Claim(counter: CounterId, bound: nat, rounds: seq<seq<Release>>) returns (taken: bool, ghost used: nat)
      modifies this`free, this`counters, this`permits
      ensures used <= |rounds|
      ensures var s := ReturnedAll(old(Now()), Flat(rounds[..used]));
              && taken == CanClaim(s, counter, bound)
              && Now() == if taken then Adjusted(s, counter, 1) else s
    {
      used := 0;
      assert Flat(rounds[..0]) == [];
      var i := 0;
      while true
        invariant 0 <= i <= |rounds| && used == i
        invariant Now() == ReturnedAll(old(Now()), Flat(rounds[..i]))
        decreases |rounds| - i
      {
        var current := Value(counters, counter);
        if current >= bound { return false, i; }
        if i < |rounds| {
          FlatNext(old(Now()), rounds, i);
          Interleave(rounds[i]);
          i := i + 1;
          used := i;
        }
        if Value(counters, counter) == current {
          counters := counters[counter := current + 1];
          return true, i;
        }
      }
    }

    method AdmissionLimitNow(active: nat) returns (bound: nat)
      ensures bound == AdmissionLimit(Now(), active)
    {
      if fixed.Some? { return fixed.value; }
      if free > reserve { return limit; }
      return Share(limit, active);
    }

    method TakeGlobalNow(client: Ip, counter: CounterId) returns (outcome: Outcome)
      modifies this`free, this`counters, this`permits, this`nextPermit
      ensures (Now(), outcome) == TakeGlobal(old(Now()), client, counter)
    {
      if free <= 0 {
        // The claimed slot is dropped with the error.
        counters := counters[counter := Value(counters, counter) - 1];
        return Refused(GlobalLimit);
      }
      free := free - 1;
      permits := permits[nextPermit := Permit(client, counter, true, true)];
      outcome := Admitted(nextPermit);
      nextPermit := nextPermit + 1;
    }

    method TryAcquireNow(client: Ip, now: Instant, afterShare: seq<Release>, rounds: seq<seq<Release>>,
                         beforeGlobal: seq<Release>)
      returns (outcome: Outcome, ghost used: nat)
      modifies this
      ensures used <= |rounds|
      ensures (Now(), outcome) ==
              TryAcquire(old(Now()), client, now, Gaps(afterShare, Flat(rounds[..used]), beforeGlobal))
    {
      var counter, active := ClientShareLocked(client, now);
      Interleave(afterShare);
      var bound := AdmissionLimitNow(active);
      ghost var s2 := Now();
      var taken;
      taken, used := Claim(counter, bound, rounds);
      ghost var s3 := ReturnedAll(s2, Flat(rounds[..used]));
      if !taken {
        assert Now() == s3 && !CanClaim(s3, counter, bound);
        return Refused(ClientLimit), used;
      }
      assert Now() == Adjusted(s3, counter, 1);
      Interleave(beforeGlobal);
      outcome := TakeGlobalNow(client, counter);
    }
  }

  function Flat(rounds: seq<seq<Release>>): seq<Release> {
    if rounds == [] then [] else Flat(rounds[..|rounds| - 1]) + rounds[|rounds| - 1]
  }

  lemma {:induction false} ReturnedAllAppend(s: State, a: seq<Release>, b: seq<Release>)
    ensures ReturnedAll(s, a + b) == ReturnedAll(ReturnedAll(s, a), b)
  {
    if b == [] {
      assert a + b == a;
    } else {
      assert (a + b)[..|a + b| - 1] == a + b[..|b| - 1];
      ReturnedAllAppend(s, a, b[..|b| - 1]);
    }
  }

  lemma FlatNext(s: State, rounds: seq<seq<Release>>, i: nat)
    requires i < |rounds|
    ensures ReturnedAll(s, Flat(rounds[..i + 1])) == ReturnedAll(ReturnedAll(s, Flat(rounds[..i])), rounds[i])
  {
    assert rounds[..i + 1][..i] == rounds[..i];
    ReturnedAllAppend(s, Flat(rounds[..i]), rounds[i]);
  }
}
