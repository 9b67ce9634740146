/**
 Traffic accounting across kernel resets, replaced tables and failed applies. A client's counter
 matches the addresses it was installed with, whoever uses them: a total never exceeds what those
 addresses carried, and follows the client's own traffic exactly as far as client and addresses go
 together.
 */
module CounterConservation {
  import opened Basics
  import opened Addresses
  import opened CounterNames
  import opened Enforcement

  // ---------------------------------------------------------------------------- shares

  function Ips(standing: map<ClientId, set<Ip>>, id: ClientId): set<Ip> { if id in standing then standing[id] else {} }

  /** What everything recorded comes to. */
  function Tally(history: seq<Burst>, share: Share, id: ClientId): Quad<nat> {
    if history == [] then NONE
    else
      var last := history[|history| - 1];
      Plus(Tally(history[..|history| - 1], share, id), Sum(last.traffic, share, id, Ips(last.standing, id)))
  }

  /** What one share of all the traffic comes to, by one figure. */
  ghost function Passed(w: World, share: Share, id: ClientId, m: Metric): nat { At(Tally(w.history, share, id), m) }

  lemma PlusAt(a: Quad<nat>, b: Quad<nat>, m: Metric)
    ensures At(Plus(a, b), m) == At(a, m) + At(b, m)
    ensures At(Bumped(a, b), m) == Wrapped(At(a, m) + At(b, m))
  {
  }

  lemma {:induction false} SharesOfTraffic(t: Traffic, id: ClientId, ips: set<Ip>, m: Metric)
    ensures At(Sum(t, Caught, id, ips), m) + At(Sum(t, Missed, id, ips), m)
            == At(Sum(t, Owned, id, ips), m) + At(Sum(t, Foreign, id, ips), m)
  {
    if t != [] { SharesOfTraffic(t[..|t| - 1], id, ips, m); }
  }

  /** What the counters catch is the client's own traffic, but for others' and what they miss. */
  lemma {:induction false} SharesBalance(history: seq<Burst>, id: ClientId, m: Metric)
    ensures At(Tally(history, Caught, id), m) + At(Tally(history, Missed, id), m)
            == At(Tally(history, Owned, id), m) + At(Tally(history, Foreign, id), m)
  {
    if history != [] {
      SharesBalance(history[..|history| - 1], id, m);
      SharesOfTraffic(history[|history| - 1].traffic, id, Ips(history[|history| - 1].standing, id), m);
    }
  }

  // ---------------------------------------------------------------- never over-counted

  /** What reading `raw` would bring the total to, before saturation. */
  function Due(a: Accumulator, raw: nat): nat {
    a.total + (if raw >= a.lastRaw then raw - a.lastRaw else raw)
  }

  predicate Within(a: Accumulator, raw: nat, most: nat) {
    a.lastRaw <= U64_MAX && a.total <= U64_MAX && Due(a, raw) <= most
  }

  lemma WithinObserve(a: Accumulator, raw: nat, most: nat)
    requires Within(a, raw, most) && raw <= U64_MAX
    ensures Within(a.Observe(raw), raw, most)
  {
  }

  /** Even a counter that wraps at 64 bits is never over-counted. */
  lemma WithinTraffic(a: Accumulator, raw: nat, most: nat, more: nat)
    requires Within(a, raw, most) && raw <= most && raw <= U64_MAX
    ensures Within(a, Wrapped(raw + more), most + more) && Wrapped(raw + more) <= most + more
  {
  }

  /** Every installed counter, and every total it may still be read into, stays within what was caught. */
  ghost predicate Bounded(w: World, id: ClientId, m: Metric) {
    var most := Passed(w, Caught, id, m);
    && (id in w.policy.clients ==>
          var a := At(w.policy.clients[id].figures, m);
          a.total <= most && a.total <= U64_MAX && a.lastRaw <= U64_MAX)
    && (w.kernel.Some? && id in w.kernel.value.counters ==>
          var raw := At(w.kernel.value.counters[id].raw, m);
          && raw <= most && raw <= U64_MAX
          && (id in w.policy.clients ==> Within(At(w.policy.clients[id].figures, m), raw, most)))
  }

  /** How much of the traffic falls to one share, by one figure. */
  ghost function Part(w: World, t: Traffic, share: Share, id: ClientId, m: Metric): nat {
    At(Sum(t, share, id, Ips(Standing(w.kernel), id)), m)
  }

  lemma CarryPassed(w: World, t: Traffic, share: Share, id: ClientId, m: Metric)
    ensures Passed(Carry(w, t), share, id, m) == Passed(w, share, id, m) + Part(w, t, share, id, m)
  {
    var history := Carry(w, t).history;
    assert history[..|history| - 1] == w.history;
    PlusAt(Tally(w.history, share, id), Sum(t, share, id, Ips(Standing(w.kernel), id)), m);
  }

  lemma CarryCounter(w: World, t: Traffic, id: ClientId, m: Metric)
    requires w.kernel.Some? && id in w.kernel.value.counters
    ensures Carry(w, t).kernel.Some? && id in Carry(w, t).kernel.value.counters
    ensures At(Carry(w, t).kernel.value.counters[id].raw, m)
            == Wrapped(At(w.kernel.value.counters[id].raw, m) + Part(w, t, Caught, id, m))
  {
    var meter := w.kernel.value.counters[id];
    PlusAt(meter.raw, Sum(t, Caught, id, meter.addresses), m);
  }

  lemma BoundedCarry(w: World, t: Traffic, id: ClientId, m: Metric)
    requires Bounded(w, id, m)
    ensures Bounded(Carry(w, t), id, m)
  {
    CarryPassed(w, t, Caught, id, m);
    if w.kernel.Some? && id in w.kernel.value.counters {
      CarryCounter(w, t, id, m);
      var raw := At(w.kernel.value.counters[id].raw, m);
      var a := if id in w.policy.clients then At(w.policy.clients[id].figures, m) else Accumulator(0, 0);
      WithinTraffic(a, raw, Passed(w, Caught, id, m), Part(w, t, Caught, id, m));
    }
  }

  lemma BoundedObserve(config: Config, w: World, io: Io, id: ClientId, m: Metric)
    requires Bounded(w, id, m)
    ensures var read := ObserveKernel(config, w.policy, w.kernel, io);
            read.Some? ==> Bounded(w.(policy := read.value), id, m)
  {
    if w.kernel.Some? && id in w.kernel.value.counters && id in w.policy.clients {
      WithinObserve(At(w.policy.clients[id].figures, m), At(w.kernel.value.counters[id].raw, m),
                    Passed(w, Caught, id, m));
    }
  }

  lemma BoundedApply(config: Config, w: World, io: Io, id: ClientId, m: Metric)
    requires Bounded(w, id, m) && !Merges(config, w.kernel, io)
    ensures Bounded(ApplyLocked(config, w, io).0, id, m)
  {
    BoundedObserve(config, w, io, id, m);
    var read := ObserveKernel(config, w.policy, w.kernel, io);
    if config.applyFirewall && read.Some? {
      BoundedCarry(w.(policy := read.value), io.gap, id, m);
    }
  }

  /** A re-enrolled client restarts at zero or keeps what it had, never more. */
  lemma {:induction false} EnrolledFigures(clients: map<ClientId, Counters>, listing: seq<Client>, id: ClientId)
    requires id in Enrolled(clients, listing)
    ensures var figures := Enrolled(clients, listing)[id].figures;
            figures == if id in clients then clients[id].figures else NewCounters(0).figures
  {
    if listing != [] {
      var rest := listing[..|listing| - 1];
      if id in Enrolled(clients, rest) { EnrolledFigures(clients, rest, id); } else { EnrolledKeeps(clients, rest); }
    }
  }

  lemma {:induction false} EnrolledKeeps(clients: map<ClientId, Counters>, listing: seq<Client>)
    ensures clients.Keys <= Enrolled(clients, listing).Keys
  {
    if listing != [] { EnrolledKeeps(clients, listing[..|listing| - 1]); }
  }

  lemma BoundedRetarget(w: World, listing: seq<Client>, id: ClientId, m: Metric)
    requires Bounded(w, id, m)
    ensures Bounded(w.(policy := Retargeted(w.policy, listing), known := listing), id, m)
  {
    var kept := Retained(w.policy.clients, listing);
    if id in Enrolled(kept, listing) { EnrolledFigures(kept, listing, id); }
  }

  lemma BoundedReconcile(config: Config, w: World, e: Event, id: ClientId, m: Metric)
    requires e.Reconcile? && Bounded(w, id, m) && !Merges(config, w.kernel, e.io)
    ensures Bounded(Step(config, w, e), id, m)
  {
    BoundedObserve(config, w, e.first, id, m);
    var read := ObserveKernel(config, w.policy, w.kernel, e.first);
    if read.Some? {
      var carried := Carry(w.(policy := read.value), e.first.gap);
      BoundedCarry(w.(policy := read.value), e.first.gap, id, m);
      BoundedRetarget(carried, e.listing, id, m);
      BoundedApply(config, BeforeApply(config, w, e).value, e.io, id, m);
    }
  }

  /** No replacement is sent to a table it does not know of. */
  predicate Deletes(config: Config, w: World, e: Event) {
    match e
    case ReconcileBase(io) => !Merges(config, w.kernel, io)
    case Disable(io) => !Merges(config, w.kernel, io)
    case Set(_, _, _, io) => !Merges(config, w.kernel, io)
    case Clear(_, io) => !Merges(config, w.kernel, io)
    case Reconcile(_, _, io) => !Merges(config, w.kernel, io)
    case Enable | Sample(_) | Flow(_) | ResetCounters(_) | DeleteTable => true
  }

  ghost predicate AlwaysDeletes(config: Config, w: World, events: seq<Event>) {
    forall k: nat | k < |events| :: Deletes(config, Run(config, w, events[..k]), events[k])
  }

  lemma AlwaysDeletesBefore(config: Config, w: World, events: seq<Event>)
    requires events != [] && AlwaysDeletes(config, w, events)
    ensures AlwaysDeletes(config, w, events[..|events| - 1])
    ensures Deletes(config, Run(config, w, events[..|events| - 1]), events[|events| - 1])
  {
    var n := |events| - 1;
    forall k: nat | k < n ensures Deletes(config, Run(config, w, events[..n][..k]), events[..n][k]) {
      assert events[..n][..k] == events[..k];
    }
  }

  /** An event that changes only what is wanted before it applies. */
  predicate Plain(e: Event) { e.ReconcileBase? || e.Disable? || e.Clear? || e.Set? }

  lemma PlainEvents(config: Config, w: World, e: Event)
    requires Plain(e)
    ensures var before := BeforeApply(config, w, e);
            if before.None? then Step(config, w, e) == w
            else && before.value == w.(policy := before.value.policy)
                 && before.value.policy.clients == w.policy.clients
                 && Step(config, w, e) == ApplyLocked(config, before.value, e.io).0
  {
  }

  lemma BoundedPlain(config: Config, w: World, e: Event, id: ClientId, m: Metric)
    requires Plain(e) && Bounded(w, id, m) && Deletes(config, w, e)
    ensures Bounded(Step(config, w, e), id, m)
  {
    PlainEvents(config, w, e);
    var before := BeforeApply(config, w, e);
    if before.Some? { BoundedApply(config, before.value, e.io, id, m); }
  }

  lemma BoundedStep(config: Config, w: World, e: Event, id: ClientId, m: Metric)
    requires Bounded(w, id, m) && Deletes(config, w, e)
    ensures Bounded(Step(config, w, e), id, m)
  {
    match e
    case Reconcile(_, _, _) => BoundedReconcile(config, w, e, id, m);
    case Sample(io) => BoundedObserve(config, w, io, id, m);
    case Flow(traffic) => BoundedCarry(w, traffic, id, m);
    case ReconcileBase(_) | Disable(_) | Clear(_, _) | Set(_, _, _, _) => BoundedPlain(config, w, e, id, m);
    case Enable | ResetCounters(_) | DeleteTable =>
  }

  lemma {:induction false} RunBounded(config: Config, events: seq<Event>, id: ClientId, m: Metric)
    requires AlwaysDeletes(config, Fresh, events)
    ensures Bounded(Run(config, Fresh, events), id, m)
  {
    if events != [] {
      AlwaysDeletesBefore(config, Fresh, events);
      RunBounded(config, events[..|events| - 1], id, m);
      BoundedStep(config, Run(config, Fresh, events[..|events| - 1]), events[|events| - 1], id, m);
    }
  }

  /**
   Over every interleaving of traffic, reads, replacements, failures, moves and outside resets: no
   total exceeds what the addresses installed for the client carried while they stood, which is the
   client's own traffic, less what it did elsewhere, plus what others did there.
   */
  lemma TotalsStayWithinTheCaught(config: Config, events: seq<Event>, id: ClientId, m: Metric)
    requires AlwaysDeletes(config, Fresh, events)
    ensures var w := Run(config, Fresh, events);
            id in w.policy.clients ==>
              var total := At(w.policy.clients[id].Totals(), m);
              && total <= Passed(w, Caught, id, m)
              && total + Passed(w, Missed, id, m) <= Passed(w, Owned, id, m) + Passed(w, Foreign, id, m)
  {
    RunBounded(config, events, id, m);
    SharesBalance(Run(config, Fresh, events).history, id, m);
  }

  // ------------------------------------------------------------------ reading on, exactly

  /** The client's counter is installed and readable into its total without loss. */
  ghost predicate Counted(w: World, id: ClientId, m: Metric) {
    && id in w.policy.clients && w.kernel.Some? && id in w.kernel.value.counters
    && At(w.policy.clients[id].figures, m).lastRaw <= At(w.kernel.value.counters[id].raw, m)
  }

  /** What a read right now would report. */
  ghost function Reported(w: World, id: ClientId, m: Metric): nat
    requires Counted(w, id, m)
  {
    Due(At(w.policy.clients[id].figures, m), At(w.kernel.value.counters[id].raw, m))
  }

  predicate Truthfully(io: Io) { io.listing != Denied && io.relisting != Denied }

  /** Nothing outside resets the table, no table is denied, the client stays where it is. */
  predicate Gentle(w: World, e: Event, id: ClientId) {
    match e
    case ResetCounters(ids) => id !in ids
    case DeleteTable => false
    case ReconcileBase(io) => Truthfully(io)
    case Disable(io) => Truthfully(io)
    case Set(_, _, _, io) => Truthfully(io)
    case Clear(_, io) => Truthfully(io)
    case Reconcile(listing, _, io) =>
      && Truthfully(io)
      && (id in w.policy.clients ==>
            Find(listing, id).Some? && Find(listing, id).value.address == w.policy.clients[id].address)
    case Enable | Sample(_) | Flow(_) => true
  }

  /** What an apply loses: what its counter catches between the read and the replacement. */
  ghost function LostBy(config: Config, w: World, io: Io, id: ClientId, m: Metric): nat {
    if ReplacesKernel(config, w.kernel, io) then Part(w, io.gap, Caught, id, m) else 0
  }

  /** What an event loses. */
  ghost function Lost(config: Config, w: World, e: Event, id: ClientId, m: Metric): nat {
    var before := BeforeApply(config, w, e);
    if before.None? then 0 else LostBy(config, before.value, e.io, id, m)
  }

  /** What the events of a run lose. */
  ghost function AllLost(config: Config, w: World, events: seq<Event>, id: ClientId, m: Metric): nat {
    if events == [] then 0
    else
      var before, last := events[..|events| - 1], events[|events| - 1];
      AllLost(config, w, before, id, m) + Lost(config, Run(config, w, before), last, id, m)
  }

  /** How much a share grew from one world to another. */
  ghost function Growth(w: World, w': World, share: Share, id: ClientId, m: Metric): int {
    Passed(w', share, id, m) - Passed(w, share, id, m)
  }

  lemma CountedCarry(w: World, t: Traffic, id: ClientId, m: Metric)
    requires Counted(w, id, m) && Bounded(w, id, m) && Passed(Carry(w, t), Caught, id, m) <= U64_MAX
    ensures Counted(Carry(w, t), id, m)
    ensures Reported(Carry(w, t), id, m) == Reported(w, id, m) + Part(w, t, Caught, id, m)
  {
    CarryPassed(w, t, Caught, id, m);
    CarryCounter(w, t, id, m);
  }

  lemma CountedObserve(config: Config, w: World, io: Io, id: ClientId, m: Metric)
    requires Counted(w, id, m) && Bounded(w, id, m) && Passed(w, Caught, id, m) <= U64_MAX
    ensures var read := ObserveKernel(config, w.policy, w.kernel, io);
            read.Some? ==>
              var w' := w.(policy := read.value);
              && Counted(w', id, m) && Reported(w', id, m) == Reported(w, id, m)
              && (config.applyFirewall && io.listing == Truthful ==>
                    At(w'.policy.clients[id].Totals(), m) == Reported(w, id, m))
  {
  }

  /** A replacement installs the totals and reads on from them. */
  lemma CountedReplace(config: Config, w: World, id: ClientId, m: Metric)
    requires id in w.policy.clients
    ensures var w' := w.(policy := AppliedPolicy(w.policy), kernel := Some(Rendered(config, w.policy)));
            Counted(w', id, m) && Reported(w', id, m) == At(w.policy.clients[id].Totals(), m)
  {
  }

  lemma ApplyHistory(config: Config, w: World, io: Io)
    ensures var history := ApplyLocked(config, w, io).0.history;
            if ReplacesKernel(config, w.kernel, io) then history == Carry(w, io.gap).history
            else history == w.history || history == Carry(w, io.gap).history
  {
  }

  lemma ApplyPassed(config: Config, w: World, io: Io, share: Share, id: ClientId, m: Metric)
    ensures Growth(w, ApplyLocked(config, w, io).0, share, id, m) >= 0
    ensures ReplacesKernel(config, w.kernel, io) ==>
              Growth(w, ApplyLocked(config, w, io).0, share, id, m) == Part(w, io.gap, share, id, m)
  {
    ApplyHistory(config, w, io);
    CarryPassed(w, io.gap, share, id, m);
  }

  lemma CountedApply(config: Config, w: World, io: Io, id: ClientId, m: Metric)
    requires Counted(w, id, m) && Bounded(w, id, m) && Truthfully(io)
    requires Passed(ApplyLocked(config, w, io).0, Caught, id, m) <= U64_MAX
    ensures var w' := ApplyLocked(config, w, io).0;
            && Counted(w', id, m)
            && Reported(w', id, m) + LostBy(config, w, io, id, m)
               == Reported(w, id, m) + Growth(w, w', Caught, id, m)
  {
    ApplyPassed(config, w, io, Caught, id, m);
    CountedObserve(config, w, io, id, m);
    BoundedObserve(config, w, io, id, m);
    var read := ObserveKernel(config, w.policy, w.kernel, io);
    if config.applyFirewall && read.Some? {
      var observed := w.(policy := read.value);
      CarryPassed(observed, io.gap, Caught, id, m);
      CountedCarry(observed, io.gap, id, m);
      CountedReplace(config, Carry(observed, io.gap), id, m);
    }
  }

  lemma CountedRetarget(w: World, listing: seq<Client>, id: ClientId, m: Metric)
    requires Counted(w, id, m)
    requires Find(listing, id).Some? && Find(listing, id).value.address == w.policy.clients[id].address
    ensures var w' := w.(policy := Retargeted(w.policy, listing), known := listing);
            Counted(w', id, m) && Reported(w', id, m) == Reported(w, id, m)
  {
    var kept := Retained(w.policy.clients, listing);
    assert id in kept;
    EnrolledKeeps(kept, listing);
    EnrolledFigures(kept, listing, id);
  }

  lemma SharesGrow(config: Config, w: World, e: Event, share: Share, id: ClientId, m: Metric)
    ensures Growth(w, Step(config, w, e), share, id, m) >= 0
  {
    if e.Flow? { CarryPassed(w, e.traffic, share, id, m); }
    var before := BeforeApply(config, w, e);
    if before.Some? {
      ApplyPassed(config, before.value, e.io, share, id, m);
      if e.Reconcile? {
        var read := ObserveKernel(config, w.policy, w.kernel, e.first);
        CarryPassed(w.(policy := read.value), e.first.gap, share, id, m);
      }
    }
  }

  /** The world a reconcile hands to its apply, when its own read succeeds. */
  ghost function Relisted(config: Config, w: World, listing: seq<Client>, first: Io): World
    requires ObserveKernel(config, w.policy, w.kernel, first).Some?
  {
    var carried := Carry(w.(policy := ObserveKernel(config, w.policy, w.kernel, first).value), first.gap);
    carried.(policy := Retargeted(carried.policy, listing), known := listing)
  }

  lemma ReconcileIs(config: Config, w: World, listing: seq<Client>, first: Io, io: Io, w': World)
    requires ObserveKernel(config, w.policy, w.kernel, first).Some?
    requires w' == ApplyLocked(config, Relisted(config, w, listing, first), io).0
    ensures Step(config, w, Reconcile(listing, first, io)) == w'
  {
  }

  lemma CountedRelisted(config: Config, w: World, listing: seq<Client>, first: Io, id: ClientId, m: Metric)
    requires ObserveKernel(config, w.policy, w.kernel, first).Some? && Counted(w, id, m) && Bounded(w, id, m)
    requires Find(listing, id).Some? && Find(listing, id).value.address == w.policy.clients[id].address
    requires Passed(Relisted(config, w, listing, first), Caught, id, m) <= U64_MAX
    ensures var before := Relisted(config, w, listing, first);
            && Counted(before, id, m) && Bounded(before, id, m)
            && Reported(before, id, m) == Reported(w, id, m) + Growth(w, before, Caught, id, m)
  {
    var observed := w.(policy := ObserveKernel(config, w.policy, w.kernel, first).value);
    var carried := Carry(observed, first.gap);
    CarryPassed(observed, first.gap, Caught, id, m);
    BoundedObserve(config, w, first, id, m);
    CountedObserve(config, w, first, id, m);
    BoundedCarry(observed, first.gap, id, m);
    CountedCarry(observed, first.gap, id, m);
    BoundedRetarget(carried, listing, id, m);
    CountedRetarget(carried, listing, id, m);
  }

  /** After the event the counter is still read on from, and all but what was lost is reported. */
  ghost predicate Follows(config: Config, w: World, e: Event, w': World, id: ClientId, m: Metric)
    requires Counted(w, id, m)
  {
    && Counted(w', id, m)
    && Reported(w', id, m) + Lost(config, w, e, id, m) == Reported(w, id, m) + Growth(w, w', Caught, id, m)
  }

  lemma CountedReconcile(config: Config, w: World, e: Event, id: ClientId, m: Metric)
    requires e.Reconcile? && Counted(w, id, m) && Bounded(w, id, m) && Gentle(w, e, id)
    requires Passed(Step(config, w, e), Caught, id, m) <= U64_MAX
    ensures Follows(config, w, e, Step(config, w, e), id, m)
  {
    if ObserveKernel(config, w.policy, w.kernel, e.first).Some? {
      var before := Relisted(config, w, e.listing, e.first);
      assert BeforeApply(config, w, e) == Some(before);
      assert Step(config, w, e) == ApplyLocked(config, before, e.io).0;
      ApplyPassed(config, before, e.io, Caught, id, m);
      CountedRelisted(config, w, e.listing, e.first, id, m);
      CountedApply(config, before, e.io, id, m);
    }
  }

  lemma CountedPlain(config: Config, w: World, e: Event, id: ClientId, m: Metric)
    requires Plain(e) && Counted(w, id, m) && Bounded(w, id, m) && Gentle(w, e, id)
    requires Passed(Step(config, w, e), Caught, id, m) <= U64_MAX
    ensures Follows(config, w, e, Step(config, w, e), id, m)
  {
    PlainEvents(config, w, e);
    var before := BeforeApply(config, w, e);
    if before.Some? {
      assert Counted(before.value, id, m) && Reported(before.value, id, m) == Reported(w, id, m);
      assert Bounded(before.value, id, m);
      CountedApply(config, before.value, e.io, id, m);
    }
  }

  lemma CountedStep(config: Config, w: World, e: Event, id: ClientId, m: Metric)
    requires Counted(w, id, m) && Bounded(w, id, m) && Gentle(w, e, id)
    requires Passed(Step(config, w, e), Caught, id, m) <= U64_MAX
    ensures Follows(config, w, e, Step(config, w, e), id, m)
  {
    SharesGrow(config, w, e, Caught, id, m);
    match e
    case Reconcile(_, _, _) => CountedReconcile(config, w, e, id, m);
    case Sample(io) => CountedObserve(config, w, io, id, m);
    case Flow(traffic) =>
      CarryPassed(w, traffic, Caught, id, m);
      CountedCarry(w, traffic, id, m);
    case ReconcileBase(_) | Disable(_) | Clear(_, _) | Set(_, _, _, _) => CountedPlain(config, w, e, id, m);
    case Enable | ResetCounters(_) | DeleteTable =>
  }

  ghost predicate GentleRun(config: Config, w: World, events: seq<Event>, id: ClientId) {
    forall k: nat | k < |events| :: Gentle(Run(config, w, events[..k]), events[k], id)
  }

  lemma GentleBefore(config: Config, w: World, events: seq<Event>, id: ClientId)
    requires events != [] && GentleRun(config, w, events, id)
    ensures GentleRun(config, w, events[..|events| - 1], id)
    ensures Gentle(Run(config, w, events[..|events| - 1]), events[|events| - 1], id)
  {
    var n := |events| - 1;
    forall k: nat | k < n ensures Gentle(Run(config, w, events[..n][..k]), events[..n][k], id) {
      assert events[..n][..k] == events[..k];
    }
  }

  lemma FollowedOn(config: Config, w: World, e: Event, id: ClientId, m: Metric)
    requires Counted(w, id, m) && Bounded(w, id, m) && Gentle(w, e, id)
    requires Passed(Step(config, w, e), Caught, id, m) <= U64_MAX
    ensures Follows(config, w, e, Step(config, w, e), id, m) && Bounded(Step(config, w, e), id, m)
  {
    CountedStep(config, w, e, id, m);
    assert Deletes(config, w, e);
    BoundedStep(config, w, e, id, m);
  }

  /**
   From any state of any run in which the client's counter is installed: however long the
   coordinator then runs without outside resets, without moving the client and without exhausting
   64 bits, what a read reports grows by exactly what the counter caught, less what passed between
   a read and its replacement, through every replacement of the table and every failed apply.
   */
  lemma {:induction false} ReportsFollowTheCounter(
      config: Config, w: World, events: seq<Event>, id: ClientId, m: Metric)
    requires Counted(w, id, m) && Bounded(w, id, m) && GentleRun(config, w, events, id)
    requires Passed(Run(config, w, events), Caught, id, m) <= U64_MAX
    ensures var w' := Run(config, w, events);
            && Bounded(w', id, m) && Counted(w', id, m)
            && Reported(w', id, m) + AllLost(config, w, events, id, m)
               == Reported(w, id, m) + Growth(w, w', Caught, id, m)
  {
    if events != [] {
      var before, last := events[..|events| - 1], events[|events| - 1];
      var middle := Run(config, w, before);
      GentleBefore(config, w, events, id);
      SharesGrow(config, middle, last, Caught, id, m);
      ReportsFollowTheCounter(config, w, before, id, m);
      FollowedOn(config, middle, last, id, m);
    }
  }

  /**
   So over such a run what is reported grows by exactly the client's own traffic, or by no more than
   it, if and only if what others sent over the installed addresses equals, or does not exceed, what
   the client sent over other addresses and what was lost.
   */
  lemma ReportsOwnTrafficIff(config: Config, w: World, events: seq<Event>, id: ClientId, m: Metric)
    requires Counted(w, id, m) && Bounded(w, id, m) && GentleRun(config, w, events, id)
    requires Passed(Run(config, w, events), Caught, id, m) <= U64_MAX
    ensures var w' := Run(config, w, events);
            var own := Growth(w, w', Owned, id, m);
            var wrong := Growth(w, w', Foreign, id, m);
            var unseen := Growth(w, w', Missed, id, m) + AllLost(config, w, events, id, m);
            && Counted(w', id, m)
            && (Reported(w', id, m) == Reported(w, id, m) + own <==> wrong == unseen)
            && (Reported(w', id, m) <= Reported(w, id, m) + own <==> wrong <= unseen)
  {
    ReportsFollowTheCounter(config, w, events, id, m);
    SharesBalance(w.history, id, m);
    SharesBalance(Run(config, w, events).history, id, m);
  }

  lemma SumOne(p: Packet, share: Share, id: ClientId, ips: set<Ip>)
    ensures Sum([p], share, id, ips) == if Belongs(p, share, id, ips) then p.amount else NONE
  {
    assert [p][..0] == [];
  }

  /** For one packet there is nothing to make up for: it is reported as the client's exactly if it is. */
  lemma PacketIsReportedIff(w: World, p: Packet, id: ClientId, m: Metric)
    requires Counted(w, id, m) && Bounded(w, id, m) && Passed(Carry(w, [p]), Caught, id, m) <= U64_MAX
    requires At(p.amount, m) > 0
    ensures Counted(Carry(w, [p]), id, m)
    ensures Reported(Carry(w, [p]), id, m) == Reported(w, id, m) + Part(w, [p], Owned, id, m) <==>
            (p.owner == id <==> p.ip in w.kernel.value.counters[id].addresses)
  {
    CountedCarry(w, [p], id, m);
    SumOne(p, Owned, id, Ips(Standing(w.kernel), id));
    SumOne(p, Caught, id, Ips(Standing(w.kernel), id));
  }

  /** A successful sample then reports that figure as the client's total. */
  lemma SampleReports(config: Config, w: World, io: Io, id: ClientId, m: Metric)
    requires Counted(w, id, m) && Bounded(w, id, m) && Passed(w, Caught, id, m) <= U64_MAX
    requires config.applyFirewall && io.listing == Truthful && io.readOk
    ensures At(Step(config, w, Sample(io)).policy.clients[id].Totals(), m) == Reported(w, id, m)
  {
    CountedObserve(config, w, io, id, m);
  }

  // ------------------------------------------------------------- addresses that change hands

  /** Every packet was the client's own exactly if it ran over an address installed for it. */
  ghost predicate KeepsToItsAddresses(history: seq<Burst>, id: ClientId) {
    forall k: nat | k < |history| ::
      forall p <- history[k].traffic :: p.owner == id <==> p.ip in Ips(history[k].standing, id)
  }

  lemma {:induction false} NoneWrong(t: Traffic, id: ClientId, ips: set<Ip>)
    requires forall p <- t :: p.owner == id <==> p.ip in ips
    ensures Sum(t, Foreign, id, ips) == NONE && Sum(t, Missed, id, ips) == NONE
  {
    if t != [] {
      assert t[|t| - 1] in t;
      NoneWrong(t[..|t| - 1], id, ips);
    }
  }

  lemma {:induction false} NoneWrongEver(history: seq<Burst>, id: ClientId)
    requires KeepsToItsAddresses(history, id)
    ensures Tally(history, Foreign, id) == NONE && Tally(history, Missed, id) == NONE
  {
    if history != [] {
      var n := |history| - 1;
      assert KeepsToItsAddresses(history[..n], id) by {
        forall k: nat | k < n
          ensures forall p <- history[..n][k].traffic :: p.owner == id <==> p.ip in Ips(history[..n][k].standing, id)
        {
          assert history[..n][k] == history[k];
        }
      }
      NoneWrongEver(history[..n], id);
      NoneWrong(history[n].traffic, id, Ips(history[n].standing, id));
    }
  }

  /** While client and addresses go together, no total exceeds the client's own traffic, in any run. */
  lemma OwnTrafficBoundsTotals(config: Config, events: seq<Event>, id: ClientId, m: Metric)
    requires AlwaysDeletes(config, Fresh, events) && KeepsToItsAddresses(Run(config, Fresh, events).history, id)
    ensures var w := Run(config, Fresh, events);
            id in w.policy.clients ==> At(w.policy.clients[id].Totals(), m) <= Passed(w, Owned, id, m)
  {
    TotalsStayWithinTheCaught(config, events, id, m);
    NoneWrongEver(Run(config, Fresh, events).history, id);
  }

  lemma {:induction false} EnrolledLists(clients: map<ClientId, Counters>, listing: seq<Client>, id: ClientId)
    requires Find(listing, id).Some? && Countable(Find(listing, id).value)
    ensures id in Enrolled(clients, listing)
  {
    if listing[|listing| - 1].containerId != id { EnrolledLists(clients, listing[..|listing| - 1], id); }
  }

  /** A client listed elsewhere loses its totals and starts again from nothing. */
  lemma MovedClientRestarts(p: Policy, listing: seq<Client>, id: ClientId)
    requires id in p.clients && Find(listing, id).Some? && Countable(Find(listing, id).value)
    requires Find(listing, id).value.address != p.clients[id].address
    ensures var clients := Retargeted(p, listing).clients;
            id in clients && clients[id].figures == NewCounters(0).figures
  {
    var kept := Retained(p.clients, listing);
    EnrolledLists(kept, listing, id);
    EnrolledFigures(kept, listing, id);
  }

  /** What the client's installed counter stands at. */
  ghost function Reading(w: World, id: ClientId, m: Metric): nat
    requires w.kernel.Some? && id in w.kernel.value.counters
  {
    At(w.kernel.value.counters[id].raw, m)
  }

  /** The client is enrolled anew while its old counter is still installed. */
  ghost predicate Restarted(w: World, id: ClientId) {
    && id in w.policy.clients && w.policy.clients[id].figures == NewCounters(0).figures
    && w.kernel.Some? && id in w.kernel.value.counters
  }

  /** The listing has the client, but not where it is counted. */
  predicate Moves(w: World, listing: seq<Client>, id: ClientId) {
    && id in w.policy.clients && w.kernel.Some? && id in w.kernel.value.counters
    && Find(listing, id).Some? && Countable(Find(listing, id).value)
    && Find(listing, id).value.address != w.policy.clients[id].address
  }

  lemma RelistedRestarts(config: Config, w: World, listing: seq<Client>, id: ClientId)
    requires config.applyFirewall && Moves(w, listing, id)
    ensures var w' := Relisted(config, w, listing, QUIET);
            && Restarted(w', id)
            && w'.kernel.value.counters[id].addresses == w.kernel.value.counters[id].addresses
            && forall m :: Reading(w, id, m) <= U64_MAX ==> Reading(w', id, m) == Reading(w, id, m)
  {
    var read := ObserveKernel(config, w.policy, w.kernel, QUIET);
    var carried := Carry(w.(policy := read.value), []);
    MovedClientRestarts(carried.policy, listing, id);
    forall m | Reading(w, id, m) <= U64_MAX ensures Reading(carried, id, m) == Reading(w, id, m) {
      CarryCounter(w.(policy := read.value), [], id, m);
    }
  }

  lemma ReplacedTotals(config: Config, w: World, id: ClientId, m: Metric)
    requires config.applyFirewall && Restarted(w, id) && Reading(w, id, m) <= U64_MAX
    ensures var w' := ApplyLocked(config, w, QUIET).0;
            id in w'.policy.clients && At(w'.policy.clients[id].Totals(), m) == Reading(w, id, m)
  {
  }

  /** And then its old counter, still installed, is read into the new total as a whole. */
  lemma MovedClientTakesOldCounter(config: Config, w: World, listing: seq<Client>, id: ClientId, m: Metric)
    requires config.applyFirewall && Moves(w, listing, id) && Reading(w, id, m) <= U64_MAX
    ensures var w' := Step(config, w, Reconcile(listing, QUIET, QUIET));
            id in w'.policy.clients && At(w'.policy.clients[id].Totals(), m) == Reading(w, id, m)
  {
    var relisted := Relisted(config, w, listing, QUIET);
    RelistedRestarts(config, w, listing, id);
    ReconcileIs(config, w, listing, QUIET, QUIET, ApplyLocked(config, relisted, QUIET).0);
    ReplacedTotals(config, relisted, id, m);
  }

  lemma QuietReconcile(config: Config, w: World, listing: seq<Client>, share: Share, id: ClientId, m: Metric)
    requires config.applyFirewall
    ensures Growth(w, Step(config, w, Reconcile(listing, QUIET, QUIET)), share, id, m) == 0
  {
    var relisted := Relisted(config, w, listing, QUIET);
    CarryPassed(w.(policy := ObserveKernel(config, w.policy, w.kernel, QUIET).value), [], share, id, m);
    ApplyPassed(config, relisted, QUIET, share, id, m);
    ReconcileIs(config, w, listing, QUIET, QUIET, ApplyLocked(config, relisted, QUIET).0);
  }

  // One client moves from the address it is counted at, and another takes that address.

  function Listed(config: Config, c: Client): World { Step(config, Fresh, Reconcile([c], QUIET, QUIET)) }

  lemma ListedIsCounted(config: Config, c: Client)
    requires config.applyFirewall && Countable(c)
    ensures var w := Listed(config, c);
            && w.policy.clients == map[c.containerId := NewCounters(c.address).(ipv6 := c.ipv6)]
            && w.kernel.Some? && w.kernel.value.counters.Keys == {c.containerId}
            && w.kernel.value.counters[c.containerId]
               == Meter(Matched(config, w.policy.clients[c.containerId]), NONE)
            && (forall b <- w.history :: b.traffic == [])
  {
    var list := [c];
    assert list[..0] == [];
    assert Find(list, c.containerId) == Some(c);
    assert Retained(map[], list) == map[];
    assert Enrolled(map[], list) == map[c.containerId := NewCounters(c.address).(ipv6 := c.ipv6)];
    var listed := BeforeApply(config, Fresh, Reconcile(list, QUIET, QUIET)).value;
    assert listed.policy.clients == Enrolled(map[], list);
  }

  lemma {:induction false} NothingPassed(history: seq<Burst>, share: Share, id: ClientId)
    requires forall b <- history :: b.traffic == []
    ensures Tally(history, share, id) == NONE
  {
    if history != [] { NothingPassed(history[..|history| - 1], share, id); }
  }

  /**
   The bound on a client's own traffic is not unconditional: when it moves and another client takes
   its address before the next listing, what that one sends is billed to the first.
   */
  lemma ReusedAddressIsBilled(config: Config, a: Client, b: Client, y: Ipv4, amount: Quad<nat>, m: Metric)
    requires config.applyFirewall && Countable(a) && Countable(b) && a.containerId != b.containerId
    requires b.address == a.address && y != 0 && y != a.address && At(amount, m) <= U64_MAX
    ensures var used := Step(config, Listed(config, a), Flow([Packet(b.containerId, V4(a.address), amount)]));
            var w := Step(config, used, Reconcile([a.(address := y), b], QUIET, QUIET));
            && a.containerId in w.policy.clients
            && At(w.policy.clients[a.containerId].Totals(), m) == At(amount, m)
            && Passed(w, Owned, a.containerId, m) == 0
  {
    var id, w, p := a.containerId, Listed(config, a), Packet(b.containerId, V4(a.address), amount);
    ListedIsCounted(config, a);
    NothingPassed(w.history, Owned, id);
    CarryPassed(w, [p], Owned, id, m);
    CarryCounter(w, [p], id, m);
    SumOne(p, Owned, id, Ips(Standing(w.kernel), id));
    SumOne(p, Caught, id, Ips(Standing(w.kernel), id));
    var list := [a.(address := y), b];
    assert list[..1] == [a.(address := y)];
    assert Find(list, id) == Some(a.(address := y)) by { assert Find(list[..1], id) == Some(a.(address := y)); }
    MovedClientTakesOldCounter(config, Carry(w, [p]), list, id, m);
    QuietReconcile(config, Carry(w, [p]), list, Owned, id, m);
  }

  /** Every command of the apply succeeds but the replacement. */
  const UNREPLACED := QUIET.(replaceOk := false)

  /** The client's counter is read on from, but matches these addresses. */
  ghost predicate CountedAt(w: World, ips: set<Ip>, id: ClientId, m: Metric) {
    Counted(w, id, m) && Reading(w, id, m) <= U64_MAX && w.kernel.value.counters[id].addresses == ips
  }

  lemma UnreplacedKeepsCounter(config: Config, w: World, id: ClientId, m: Metric)
    requires config.applyFirewall && Restarted(w, id) && Reading(w, id, m) <= U64_MAX
    ensures CountedAt(ApplyLocked(config, w, UNREPLACED).0, w.kernel.value.counters[id].addresses, id, m)
  {
    var read := ObserveKernel(config, w.policy, w.kernel, UNREPLACED);
    CarryCounter(w.(policy := read.value), [], id, m);
  }

  /** A client whose move is not installed is still counted where it was. */
  lemma MovedButUnreplaced(config: Config, w: World, listing: seq<Client>, id: ClientId, m: Metric)
    requires config.applyFirewall && Moves(w, listing, id) && Reading(w, id, m) <= U64_MAX
    ensures CountedAt(Step(config, w, Reconcile(listing, QUIET, UNREPLACED)),
                      w.kernel.value.counters[id].addresses, id, m)
  {
    var relisted := Relisted(config, w, listing, QUIET);
    RelistedRestarts(config, w, listing, id);
    UnreplacedKeepsCounter(config, relisted, id, m);
    ReconcileIs(config, w, listing, QUIET, UNREPLACED, ApplyLocked(config, relisted, UNREPLACED).0);
  }

  lemma MissedPacket(w: World, p: Packet, ips: set<Ip>, id: ClientId, m: Metric)
    requires CountedAt(w, ips, id, m) && p.owner == id && p.ip !in ips
    ensures Counted(Carry(w, [p]), id, m) && Reported(Carry(w, [p]), id, m) == Reported(w, id, m)
    ensures Growth(w, Carry(w, [p]), Owned, id, m) == At(p.amount, m)
  {
    CarryPassed(w, [p], Owned, id, m);
    CarryCounter(w, [p], id, m);
    SumOne(p, Owned, id, Ips(Standing(w.kernel), id));
    SumOne(p, Caught, id, Ips(Standing(w.kernel), id));
  }

  /**
   Nor is exactness: while the table of a moved client could not be replaced, what it sends from its
   new address is not reported.
   */
  lemma MovedClientIsMissed(config: Config, a: Client, y: Ipv4, amount: Quad<nat>, m: Metric)
    requires config.applyFirewall && Countable(a) && y != 0 && y != a.address
    ensures var id := a.containerId;
            var w := Step(config, Listed(config, a), Reconcile([a.(address := y)], QUIET, UNREPLACED));
            var sent := Step(config, w, Flow([Packet(id, V4(y), amount)]));
            && Counted(w, id, m) && Counted(sent, id, m) && Reported(sent, id, m) == Reported(w, id, m)
            && Growth(w, sent, Owned, id, m) == At(amount, m)
  {
    var id, start, moved := a.containerId, Listed(config, a), a.(address := y);
    var list := [moved];
    assert list[..0] == [] && Find(list, id) == Some(moved);
    ListedIsCounted(config, a);
    var ips := start.kernel.value.counters[id].addresses;
    MovedButUnreplaced(config, start, list, id, m);
    MissedPacket(Step(config, start, Reconcile(list, QUIET, UNREPLACED)), Packet(id, V4(y), amount), ips, id, m);
  }

  // --------------------------------------------------------- what a listing has counted

  /** Only countable clients are counted. */
  ghost predicate AllCountable(clients: map<ClientId, Counters>) {
    forall id <- clients :: clients[id].address != 0 && id != "" && forall ch <- id :: IsAlphanumeric(ch)
  }

  lemma {:induction false} EnrolledCountable(clients: map<ClientId, Counters>, listing: seq<Client>)
    requires AllCountable(clients)
    ensures AllCountable(Enrolled(clients, listing))
  {
    if listing != [] { EnrolledCountable(clients, listing[..|listing| - 1]); }
  }

  lemma ApplyKeepsClients(config: Config, w: World, io: Io)
    ensures var p, p' := w.policy, ApplyLocked(config, w, io).0.policy;
            && p'.clients.Keys == p.clients.Keys
            && forall id <- p.clients :: p'.clients[id].address == p.clients[id].address
  {
  }

  /** Over every run only alphanumeric identifiers are ever counted, so no pod is, and none at 0.0.0.0. */
  lemma {:induction false} CountedAreAlphanumeric(config: Config, events: seq<Event>)
    ensures AllCountable(Run(config, Fresh, events).policy.clients)
  {
    if events != [] {
      var before, e := events[..|events| - 1], events[|events| - 1];
      var w := Run(config, Fresh, before);
      CountedAreAlphanumeric(config, before);
      var ready := BeforeApply(config, w, e);
      if e.Reconcile? && ready.Some? {
        var read := ObserveKernel(config, w.policy, w.kernel, e.first).value;
        assert AllCountable(read.clients);
        EnrolledCountable(Retained(read.clients, e.listing), e.listing);
      }
      if ready.Some? { ApplyKeepsClients(config, ready.value, e.io); }
    }
  }

  predicate UniqueIds(listing: seq<Client>) {
    forall i, j | 0 <= i < j < |listing| :: listing[i].containerId != listing[j].containerId
  }

  lemma {:induction false} FindIsListed(listing: seq<Client>, id: ClientId)
    requires Find(listing, id).Some?
    ensures Find(listing, id).value in listing && Find(listing, id).value.containerId == id
  {
    if listing[|listing| - 1].containerId != id { FindIsListed(listing[..|listing| - 1], id); }
  }

  lemma {:induction false} UnlistedIsUnfound(listing: seq<Client>, id: ClientId)
    requires forall i | 0 <= i < |listing| :: listing[i].containerId != id
    ensures Find(listing, id).None?
  {
    if listing != [] { UnlistedIsUnfound(listing[..|listing| - 1], id); }
  }

  lemma {:induction false} EnrolledIs(clients: map<ClientId, Counters>, listing: seq<Client>, id: ClientId)
    requires UniqueIds(listing)
    ensures var c, now := Find(listing, id), Enrolled(clients, listing);
            if c.None? || !Countable(c.value)
            then (id in now <==> id in clients) && (id in clients ==> now[id] == clients[id])
            else id in now && now[id] == (if id in clients then clients[id] else NewCounters(c.value.address))
                                         .(ipv6 := c.value.ipv6)
  {
    if listing != [] {
      var rest, last := listing[..|listing| - 1], listing[|listing| - 1];
      EnrolledIs(clients, rest, id);
      if last.containerId == id { UnlistedIsUnfound(rest, id); }
    }
  }

  /**
   Which clients a listing leaves counted, and how: exactly the countable ones of it, at the addresses
   it gives, with their totals if they are where they were and from nothing otherwise.
   */
  lemma SyncedIff(clients: map<ClientId, Counters>, listing: seq<Client>, id: ClientId)
    requires UniqueIds(listing) && AllCountable(clients)
    ensures var c := Find(listing, id);
            var now := Synced(clients, listing);
            && (id in now <==> c.Some? && Countable(c.value))
            && (id in now ==>
                  && now[id].address == c.value.address && now[id].ipv6 == c.value.ipv6
                  && now[id].figures == if id in clients && clients[id].address == c.value.address
                                        then clients[id].figures else NewCounters(0).figures)
  {
    EnrolledIs(Retained(clients, listing), listing, id);
    if Find(listing, id).Some? { FindIsListed(listing, id); }
  }

  lemma ReplacedCounters(config: Config, w: World, io: Io, id: ClientId)
    requires ReplacesKernel(config, w.kernel, io) && !Merges(config, w.kernel, io)
    ensures var w' := ApplyLocked(config, w, io).0;
            && w'.kernel.Some? && (id in w'.kernel.value.counters <==> id in w.policy.clients)
            && (id in w.policy.clients ==>
                  var meter := w'.kernel.value.counters[id];
                  && id in w'.policy.clients && meter.raw == w'.policy.clients[id].Totals()
                  && (forall a :: V4(a) in meter.addresses <==> a == w.policy.clients[id].address)
                  && (forall a: Ipv6 ::
                        V6(a) in meter.addresses <==> config.ipv6 && w.policy.clients[id].ipv6 == Some(a)))
  {
  }

  /**
   After a reconcile, at any point of any run, that hears its listing and replaces the table: exactly
   the listing's countable clients have a counter, and it matches exactly the addresses listed, IPv6
   only where it is routed.
   */
  lemma ListedClientsAreCounted(config: Config, events: seq<Event>, listing: seq<Client>, first: Io, io: Io,
                                id: ClientId)
    requires var w := Run(config, Fresh, events);
             && ObserveKernel(config, w.policy, w.kernel, first).Some?
             && ReplacesKernel(config, w.kernel, io) && !Merges(config, w.kernel, io)
    requires UniqueIds(listing)
    ensures var w' := Step(config, Run(config, Fresh, events), Reconcile(listing, first, io));
            var c := Find(listing, id);
            && w'.kernel.Some? && (id in w'.kernel.value.counters <==> c.Some? && Countable(c.value))
            && (c.Some? && Countable(c.value) ==>
                  var meter := w'.kernel.value.counters[id];
                  && (forall a :: V4(a) in meter.addresses <==> a == c.value.address)
                  && (forall a: Ipv6 :: V6(a) in meter.addresses <==> config.ipv6 && c.value.ipv6 == Some(a)))
  {
    var w := Run(config, Fresh, events);
    var read := ObserveKernel(config, w.policy, w.kernel, first).value;
    var relisted := Relisted(config, w, listing, first);
    CountedAreAlphanumeric(config, events);
    assert AllCountable(read.clients);
    SyncedIff(read.clients, listing, id);
    ReplacedCounters(config, relisted, io, id);
    ReconcileIs(config, w, listing, first, io, ApplyLocked(config, relisted, io).0);
  }

  // ---------------------------------------------------------------------- outside resets

  lemma ResetReads(config: Config, w: World, t: Traffic, id: ClientId, m: Metric)
    requires config.applyFirewall && id in w.policy.clients && w.kernel.Some? && id in w.kernel.value.counters
    requires Part(w, t, Caught, id, m) <= U64_MAX
    ensures var reset := Step(config, w, ResetCounters({id}));
            var w' := Step(config, Carry(reset, t), Sample(QUIET));
            id in w'.policy.clients
            && At(w'.policy.clients[id].figures, m)
               == At(w.policy.clients[id].figures, m).Observe(Part(w, t, Caught, id, m))
  {
    var reset := Step(config, w, ResetCounters({id}));
    CarryCounter(reset, t, id, m);
  }

  /**
   After something outside has zeroed a client's counter, the next read reports all that passed since
   exactly if that is less than the counter stood at when last read, or it had stood at nothing.
   */
  lemma ResetIsNoticedIff(config: Config, w: World, t: Traffic, id: ClientId, m: Metric)
    requires config.applyFirewall && id in w.policy.clients && w.kernel.Some? && id in w.kernel.value.counters
    requires At(w.policy.clients[id].Totals(), m) + Part(w, t, Caught, id, m) <= U64_MAX
    ensures var reset := Step(config, w, ResetCounters({id}));
            var w' := Step(config, Carry(reset, t), Sample(QUIET));
            var since, seen := Part(w, t, Caught, id, m), At(w.policy.clients[id].figures, m).lastRaw;
            && id in w'.policy.clients
            && (At(w'.policy.clients[id].Totals(), m) == At(w.policy.clients[id].Totals(), m) + since
                <==> since < seen || seen == 0)
  {
    ResetReads(config, w, t, id, m);
  }

  // ----------------------------------------------------------------- counter names

  /**
   Over every run, two counted clients share a counter name exactly when the first 64 characters of
   their identifiers agree.
   */
  lemma CountedNamesAgreeIff(config: Config, events: seq<Event>, direction: string, a: ClientId, b: ClientId)
    requires a in Run(config, Fresh, events).policy.clients && b in Run(config, Fresh, events).policy.clients
    ensures CounterName(direction, a) == CounterName(direction, b) <==> Clipped(a) == Clipped(b)
  {
    CountedAreAlphanumeric(config, events);
    SafeKeepsAlphanumeric(a);
    SafeKeepsAlphanumeric(b);
    NamesAgreeIff(direction, a, b);
  }
}
