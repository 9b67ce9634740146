/** What every interleaving of the gateway tasks keeps, whichever kernel commands fail. */
module EnforcementSafety {
  import opened Basics
  import opened Enforcement

  // ------------------------------------------------------------------- target selection

  /** `u` resolves to `t` through entry `i`: eligible, and no later eligible entry shares its usage ID. */
  ghost predicate Resolves(listing: seq<Client>, i: nat, u: UsageId, t: DnatTarget) {
    && i < |listing| && Eligible(listing[i]) && listing[i].usageId == u && TargetOf(listing[i]) == t
    && (forall j: nat | i < j < |listing| && Eligible(listing[j]) :: listing[j].usageId != u)
  }

  lemma {:induction false} SelectedIff(listing: seq<Client>, u: UsageId, t: DnatTarget)
    ensures (u in SelectTargets(listing) && SelectTargets(listing)[u] == t)
            <==> exists i: nat :: Resolves(listing, i, u, t)
  {
    if listing != [] {
      var n := |listing| - 1;
      var rest := listing[..n];
      SelectedIff(rest, u, t);
      forall i: nat | i < n && !(Eligible(listing[n]) && listing[n].usageId == u)
        ensures Resolves(rest, i, u, t) <==> Resolves(listing, i, u, t)
      {
        if Resolves(listing, i, u, t) {
          assert forall j: nat | i < j < n && Eligible(rest[j]) :: rest[j] == listing[j];
        }
      }
      if Eligible(listing[n]) && listing[n].usageId == u {
        assert TargetOf(listing[n]) == t <==> Resolves(listing, n, u, t);
        assert forall i: nat | i < n :: !Resolves(listing, i, u, t);
      } else {
        assert !Resolves(listing, n, u, t);
        if exists i: nat :: Resolves(rest, i, u, t) {
          var i: nat :| Resolves(rest, i, u, t);
          assert Resolves(listing, i, u, t);
        }
        if exists i: nat :: Resolves(listing, i, u, t) {
          var i: nat :| Resolves(listing, i, u, t);
          assert Resolves(rest, i, u, t);
        }
      }
    }
  }

  // ---------------------------------------------------------------------- DNAT safety

  /** Rule `d` leads to a client of the listing that is compliant and asked for forwarding on that port. */
  ghost predicate PointsAtCompliantClient(listing: seq<Client>, d: Dnat) {
    exists c <- listing ::
      c.portForwardTarget && c.compliant && c.targetPort == Some(d.port) && c.address == d.address
  }

  /** Nothing is wanted unless DNAT is allowed, and whatever is wanted leads to its usage's current target. */
  ghost predicate Sound(w: World) {
    var p := w.policy;
    && (p.desired != map[] ==> p.allowed)
    && p.targets == SelectTargets(w.known)
    && (forall u <- p.desired ::
          && u in p.targets
          && p.desired[u].address == p.targets[u].address
          && p.desired[u].port == p.targets[u].port)
  }

  function RulesOf(kernel: Option<Table>): set<Dnat> { if kernel.None? then {} else kernel.value.dnat }

  /** The rules a replacement leaves beside the ones it sends: those of a table it did not know to delete. */
  function Stale(config: Config, kernel: Option<Table>, io: Io): set<Dnat> {
    if Merges(config, kernel, io) then RulesOf(kernel) else {}
  }

  lemma CarryKeepsRules(w: World, t: Traffic)
    ensures var w' := Carry(w, t);
            && w'.policy == w.policy && w'.known == w.known
            && (w'.kernel.Some? <==> w.kernel.Some?) && RulesOf(w'.kernel) == RulesOf(w.kernel)
  {
  }

  /** Applying changes neither what is wanted nor whom it is for. */
  lemma ApplyKeepsIntent(config: Config, w: World, io: Io)
    ensures var p := w.policy; var p' := ApplyLocked(config, w, io).0.policy;
            p'.allowed == p.allowed && p'.targets == p.targets && p'.desired == p.desired
    ensures ApplyLocked(config, w, io).0.known == w.known
    ensures var w' := ApplyLocked(config, w, io).0;
            if ReplacesKernel(config, w.kernel, io)
            then && w'.kernel.Some? && RulesOf(w'.kernel) == w.policy.desired.Values + Stale(config, w.kernel, io)
                 && w'.policy.applied == w.policy.desired
            else && (w'.kernel.Some? <==> w.kernel.Some?) && RulesOf(w'.kernel) == RulesOf(w.kernel)
                 && w'.policy.applied == w.policy.applied
  {
    var observed := ObserveKernel(config, w.policy, w.kernel, io);
    if observed.Some? { CarryKeepsRules(w.(policy := observed.value), io.gap); }
  }

  lemma BeforeApplySound(config: Config, w: World, e: Event)
    requires Sound(w)
    ensures BeforeApply(config, w, e).Some? ==> Sound(BeforeApply(config, w, e).value)
  {
  }

  lemma StepSound(config: Config, w: World, e: Event)
    requires Sound(w)
    ensures Sound(Step(config, w, e))
  {
    BeforeApplySound(config, w, e);
    var before := BeforeApply(config, w, e);
    if before.Some? { ApplyKeepsIntent(config, before.value, e.io); }
  }

  /** Over every interleaving and every pattern of failures. */
  lemma {:induction false} RunSound(config: Config, events: seq<Event>)
    ensures Sound(Run(config, Fresh, events))
  {
    if events != [] {
      RunSound(config, events[..|events| - 1]);
      StepSound(config, Run(config, Fresh, events[..|events| - 1]), events[|events| - 1]);
    }
  }

  /** Whatever is wanted leads to a compliant forwarding client of the listing last heard. */
  lemma DesiredPointsAtCompliantClients(w: World)
    requires Sound(w)
    ensures forall d <- w.policy.desired.Values :: PointsAtCompliantClient(w.known, d)
  {
    forall d <- w.policy.desired.Values ensures PointsAtCompliantClient(w.known, d) {
      var u :| u in w.policy.desired && w.policy.desired[u] == d;
      var t := w.policy.targets[u];
      SelectedIff(w.known, u, t);
      var i: nat :| Resolves(w.known, i, u, t);
      assert w.known[i] in w.known;
    }
  }

  lemma RulesBeforeApply(config: Config, w: World, e: Event)
    requires BeforeApply(config, w, e).Some?
    ensures var before := BeforeApply(config, w, e).value;
            (before.kernel.Some? <==> w.kernel.Some?) && RulesOf(before.kernel) == RulesOf(w.kernel)
  {
  }

  /**
   After any event whose apply succeeds, in any run, every wanted rule is installed, leads to a
   compliant forwarding client of the listing last heard, and is there only while DNAT is allowed;
   and nothing else is installed exactly when the old table was deleted or held nothing else.
   */
  lemma InstalledRulesAreCurrent(config: Config, events: seq<Event>, e: Event)
    requires Installs(config, Run(config, Fresh, events), e)
    ensures var before := Run(config, Fresh, events);
            var w := Step(config, before, e);
            && w.kernel.Some? && w.policy.applied == w.policy.desired
            && w.policy.desired.Values <= RulesOf(w.kernel)
            && (forall d <- w.policy.desired.Values :: PointsAtCompliantClient(w.known, d))
            && (w.policy.desired != map[] ==> w.policy.allowed)
            && (RulesOf(w.kernel) == w.policy.desired.Values <==>
                  !Merges(config, before.kernel, e.io) || RulesOf(before.kernel) <= w.policy.desired.Values)
  {
    var w := Run(config, Fresh, events);
    RunSound(config, events);
    StepSound(config, w, e);
    RulesBeforeApply(config, w, e);
    ApplyKeepsIntent(config, BeforeApply(config, w, e).value, e.io);
    DesiredPointsAtCompliantClients(Step(config, w, e));
  }

  // --------------------------------------------------------------- listings not heard

  /** A reconcile hears its listing when its own read of the kernel succeeds. */
  predicate Hears(config: Config, w: World, e: Event) {
    e.Reconcile? && ObserveKernel(config, w.policy, w.kernel, e.first).Some?
  }

  /** The listing of the latest reconcile of the run that heard its own. */
  function LastHeard(config: Config, events: seq<Event>): seq<Client> {
    if events == [] then []
    else
      var before, last := events[..|events| - 1], events[|events| - 1];
      if Hears(config, Run(config, Fresh, before), last) then last.listing else LastHeard(config, before)
  }

  /** The listing the rules follow is the one last heard, in any run. */
  lemma {:induction false} KnownIsLastHeard(config: Config, events: seq<Event>)
    ensures Run(config, Fresh, events).known == LastHeard(config, events)
  {
    if events != [] {
      var before, last := events[..|events| - 1], events[|events| - 1];
      var w := Run(config, Fresh, before);
      KnownIsLastHeard(config, before);
      var ready := BeforeApply(config, w, last);
      if ready.Some? { ApplyKeepsIntent(config, ready.value, last.io); }
    }
  }

  /** Every wanted entry leads to a compliant forwarding client of the listing. */
  ghost predicate FollowsListing(w: World, listing: seq<Client>) {
    forall d <- w.policy.desired.Values :: PointsAtCompliantClient(listing, d)
  }

  lemma HeardListingIsFollowed(config: Config, w: World, listing: seq<Client>, first: Io, io: Io)
    requires Sound(w) && Hears(config, w, Reconcile(listing, first, io))
    ensures FollowsListing(Step(config, w, Reconcile(listing, first, io)), listing)
  {
    var e := Reconcile(listing, first, io);
    StepSound(config, w, e);
    ApplyKeepsIntent(config, BeforeApply(config, w, e).value, io);
    DesiredPointsAtCompliantClients(Step(config, w, e));
  }

  /**
   A reconcile makes what is wanted follow its listing, whatever the listing, exactly when its own
   read of the kernel succeeds or nothing is wanted.
   */
  lemma ListingFollowedIff(config: Config, w: World, first: Io, io: Io)
    requires Sound(w)
    ensures (forall listing: seq<Client> :: FollowsListing(Step(config, w, Reconcile(listing, first, io)), listing))
            <==> ObserveKernel(config, w.policy, w.kernel, first).Some? || w.policy.desired == map[]
  {
    if ObserveKernel(config, w.policy, w.kernel, first).Some? {
      forall listing: seq<Client> ensures FollowsListing(Step(config, w, Reconcile(listing, first, io)), listing) {
        HeardListingIsFollowed(config, w, listing, first, io);
      }
    } else {
      forall listing: seq<Client> ensures Step(config, w, Reconcile(listing, first, io)) == w {}
      if w.policy.desired != map[] {
        var u :| u in w.policy.desired;
        assert w.policy.desired[u] in w.policy.desired.Values;
        assert !FollowsListing(Step(config, w, Reconcile([], first, io)), []);
      }
    }
  }

  /**
   So a listing whose read fails is lost: the next apply to succeed installs every rule still wanted,
   although none of them leads to a client of the listing the coordinator was given.
   */
  lemma LostListingKeepsRules(config: Config, w: World, first: Io, io: Io, next: Io)
    requires w.kernel.Some? && first.listing == Truthful && !first.readOk && ReplacesKernel(config, w.kernel, next)
    ensures var after := Step(config, Step(config, w, Reconcile([], first, io)), ReconcileBase(next));
            && after.kernel.Some? && w.policy.desired.Values <= RulesOf(after.kernel)
            && forall d <- w.policy.desired.Values :: !PointsAtCompliantClient([], d)
  {
    var lost := Step(config, w, Reconcile([], first, io));
    assert lost == w;
    ApplyKeepsIntent(config, lost, next);
  }

  /** A client is listed and asks for its rule. */
  function Forwarding(c: Client, port: nat): seq<Event>
    requires Eligible(c)
  {
    [Reconcile([c], QUIET, QUIET), Enable, Set(c.usageId, port, TargetOf(c), QUIET)]
  }

  lemma ForwardingInstalls(ipv6: bool, c: Client, port: nat)
    requires Eligible(c)
    ensures var w := Run(Config(true, ipv6), Fresh, Forwarding(c, port));
            w.kernel.Some? && w.policy.desired == map[c.usageId := TunnelDnat(port, TargetOf(c))]
  {
    var config, list := Config(true, ipv6), [c];
    RunThree(config, Reconcile(list, QUIET, QUIET), Enable, Set(c.usageId, port, TargetOf(c), QUIET));
    assert list[..0] == [];
    assert SelectTargets(list) == map[c.usageId := TargetOf(c)];
    var listed := Step(config, Fresh, Reconcile(list, QUIET, QUIET));
    ApplyKeepsIntent(config, BeforeApply(config, Fresh, Reconcile(list, QUIET, QUIET)).value, QUIET);
    assert listed.policy.targets == SelectTargets(list) && listed.policy.desired == map[];
    var open := Step(config, listed, Enable);
    var asked := BeforeApply(config, open, Set(c.usageId, port, TargetOf(c), QUIET));
    ApplyKeepsIntent(config, asked.value, QUIET);
  }

  /** Such a world is reached: a client forwards, an empty listing is lost, and the rule is installed again. */
  lemma LostListingInstallsStaleRules(ipv6: bool, c: Client, port: nat, first: Io)
    requires Eligible(c) && first.listing == Truthful && !first.readOk
    ensures var config := Config(true, ipv6);
            var w := Run(config, Fresh, Forwarding(c, port));
            var after := Step(config, Step(config, w, Reconcile([], first, QUIET)), ReconcileBase(QUIET));
            && TunnelDnat(port, TargetOf(c)) in RulesOf(after.kernel)
            && !PointsAtCompliantClient([], TunnelDnat(port, TargetOf(c)))
  {
    var config := Config(true, ipv6);
    var w := Run(config, Fresh, Forwarding(c, port));
    ForwardingInstalls(ipv6, c, port);
    assert w.policy.desired[c.usageId] in w.policy.desired.Values;
    LostListingKeepsRules(config, w, first, QUIET, QUIET);
  }

  // ----------------------------------------------------------------- what was applied

  /** Nobody else has deleted the table. */
  predicate NeverDeleted(events: seq<Event>) { forall k: nat | k < |events| :: !events[k].DeleteTable? }

  /** No replacement of the run is sent to a table it does not know of. */
  ghost predicate NeverMerges(config: Config, w: World, events: seq<Event>) {
    forall k: nat | k < |events| :: !MergesAt(config, Run(config, w, events[..k]), events[k])
  }

  predicate MergesAt(config: Config, w: World, e: Event) {
    Installs(config, w, e) && Merges(config, w.kernel, e.io)
  }

  ghost predicate AppliedStands(w: World) { w.policy.applied.Values <= RulesOf(w.kernel) }

  ghost predicate AppliedIsAll(w: World) { w.policy.applied.Values == RulesOf(w.kernel) }

  /**
   While nobody else deletes the table, what counts as applied is installed, through every failed
   apply in between; and it is all that is installed if no replacement was sent to a table it did
   not know of.
   */
  lemma {:induction false} AppliedIsInstalled(config: Config, events: seq<Event>, usage: UsageId, dnat: Dnat)
    requires NeverDeleted(events)
    ensures var w := Run(config, Fresh, events);
            && AppliedStands(w) && (IsApplied(w.policy, usage, dnat) ==> dnat in RulesOf(w.kernel))
            && (NeverMerges(config, Fresh, events) ==> AppliedIsAll(w))
  {
    if events != [] {
      var before, last := events[..|events| - 1], events[|events| - 1];
      assert forall k: nat | k < |before| :: before[k] == events[k] && before[..k] == events[..k];
      AppliedIsInstalled(config, before, usage, dnat);
      StepAppliedIsInstalled(config, Run(config, Fresh, before), last);
      if NeverMerges(config, Fresh, events) {
        assert NeverMerges(config, Fresh, before) by {
          forall k: nat | k < |before| ensures !MergesAt(config, Run(config, Fresh, before[..k]), before[k]) {
            assert !MergesAt(config, Run(config, Fresh, events[..k]), events[k]);
          }
        }
        assert !MergesAt(config, Run(config, Fresh, events[..|before|]), events[|before|]);
      }
    }
    var w := Run(config, Fresh, events);
    if IsApplied(w.policy, usage, dnat) { assert w.policy.applied[usage] in w.policy.applied.Values; }
  }

  lemma StepAppliedIsInstalled(config: Config, w: World, e: Event)
    requires !e.DeleteTable? && AppliedStands(w)
    ensures AppliedStands(Step(config, w, e))
    ensures AppliedIsAll(w) && !MergesAt(config, w, e) ==> AppliedIsAll(Step(config, w, e))
  {
    var ready := BeforeApply(config, w, e);
    if ready.Some? {
      RulesBeforeApply(config, w, e);
      ApplyKeepsIntent(config, ready.value, e.io);
    }
  }

  /** With the firewall left alone, no event changes what is installed. */
  lemma UnmanagedKernelKeepsItsRules(config: Config, w: World, e: Event)
    requires !config.applyFirewall && w.kernel.Some? && !e.DeleteTable?
    ensures var w' := Step(config, w, e); w'.kernel.Some? && RulesOf(w'.kernel) == RulesOf(w.kernel)
  {
  }

  // --------------------------------------------------------- nothing comes back by itself

  predicate NothingInstalled(w: World) { RulesOf(w.kernel) == {} }

  /** Event `j` is a set that the coordinator accepts: DNAT allowed, and its target still current. */
  ghost predicate AcceptedSet(config: Config, w: World, events: seq<Event>, j: nat) {
    && j < |events| && events[j].Set?
    && Accepts(Run(config, w, events[..j]).policy, events[j].usage, events[j].target)
  }

  /** Some accepted set comes after some enable. */
  ghost predicate Reopened(config: Config, w: World, events: seq<Event>) {
    exists i: nat, j: nat {:trigger events[i], AcceptedSet(config, w, events, j)} ::
      i < j && i < |events| && events[i].Enable? && AcceptedSet(config, w, events, j)
  }

  /** Shut: nothing wanted, nothing installed. */
  predicate Shut(w: World) { w.policy.desired == map[] && NothingInstalled(w) }

  lemma StepKeepsShut(config: Config, w: World, e: Event)
    requires Shut(w)
    requires !(e.Set? && Accepts(w.policy, e.usage, e.target))
    ensures Shut(Step(config, w, e))
    ensures !e.Enable? && Step(config, w, e).policy.allowed ==> w.policy.allowed
  {
    var before := BeforeApply(config, w, e);
    if before.Some? {
      assert before.value.policy.desired == map[];
      ApplyKeepsIntent(config, before.value, e.io);
    }
  }

  lemma ReopenedExtends(config: Config, w: World, events: seq<Event>)
    requires events != [] && Reopened(config, w, events[..|events| - 1])
    ensures Reopened(config, w, events)
  {
    var prefix := events[..|events| - 1];
    var i: nat, j: nat :| i < j && i < |prefix| && prefix[i].Enable? && AcceptedSet(config, w, prefix, j);
    assert prefix[..j] == events[..j];
    assert events[i].Enable? && AcceptedSet(config, w, events, j);
  }

  lemma {:induction false} ShutUntilReopened(config: Config, w: World, events: seq<Event>)
    requires Shut(w) && !w.policy.allowed
    ensures Reopened(config, w, events) || Shut(Run(config, w, events))
    ensures Run(config, w, events).policy.allowed ==> exists i: nat :: i < |events| && events[i].Enable?
  {
    if events != [] {
      var n := |events| - 1;
      var prefix := events[..n];
      var last := Run(config, w, prefix);
      ShutUntilReopened(config, w, prefix);
      AllowedOnlyByEnable(config, last, events[n]);
      if last.policy.allowed {
        var i: nat :| i < n && prefix[i].Enable?;
        assert events[i].Enable?;
      }
      if Reopened(config, w, prefix) {
        ReopenedExtends(config, w, events);
      } else if events[n].Set? && Accepts(last.policy, events[n].usage, events[n].target) {
        assert AcceptedSet(config, w, events, n);
      } else {
        StepKeepsShut(config, last, events[n]);
      }
    }
  }

  lemma AllowedOnlyByEnable(config: Config, w: World, e: Event)
    ensures Step(config, w, e).policy.allowed ==> w.policy.allowed || e.Enable?
  {
    var before := BeforeApply(config, w, e);
    if before.Some? { ApplyKeepsIntent(config, before.value, e.io); }
  }

  /**
   After a disable whose apply succeeds, whatever the world was before it, nothing is installed
   exactly when the old table was deleted or held nothing; and then no DNAT rule is installed by any
   later interleaving until an enable is followed by a set whose target is still current.
   */
  lemma QuietAfterDisable(config: Config, w: World, io: Io, events: seq<Event>)
    requires Installs(config, w, Disable(io))
    ensures var off := Step(config, w, Disable(io));
            && (NothingInstalled(off) <==> !Merges(config, w.kernel, io) || NothingInstalled(w))
            && (NothingInstalled(off) ==> Reopened(config, off, events) || NothingInstalled(Run(config, off, events)))
  {
    var off := Step(config, w, Disable(io));
    ApplyKeepsIntent(config, BeforeApply(config, w, Disable(io)).value, io);
    if NothingInstalled(off) { ShutUntilReopened(config, off, events); }
  }

  /** A disable whose apply fails still takes effect with the next apply of any task that succeeds, in the same way. */
  lemma FailedDisableIsRemembered(config: Config, w: World, io: Io, e: Event)
    requires var off := Step(config, w, Disable(io)); !e.Set? && Installs(config, off, e)
    ensures var off := Step(config, w, Disable(io));
            NothingInstalled(Step(config, off, e)) <==> !Merges(config, off.kernel, e.io) || NothingInstalled(off)
  {
    var off := Step(config, w, Disable(io));
    ApplyKeepsIntent(config, BeforeApply(config, w, Disable(io)).value, io);
    RulesBeforeApply(config, off, e);
    ApplyKeepsIntent(config, BeforeApply(config, off, e).value, e.io);
  }

  /** A table that is there but denied keeps its rules through a disable that reports success. */
  lemma DeniedTableSurvivesDisable(config: Config, w: World, io: Io)
    requires config.applyFirewall && w.kernel.Some? && !NothingInstalled(w)
    requires io.listing == Denied && io.relisting == Denied && io.replaceOk
    ensures var off := BeforeApply(config, w, Disable(io)).value;
            && ApplyLocked(config, off, io).1
            && RulesOf(Step(config, w, Disable(io)).kernel) == RulesOf(w.kernel)
  {
    ApplyKeepsIntent(config, BeforeApply(config, w, Disable(io)).value, io);
  }

  /**
   So does a set whose apply fails: its caller is told of an error, yet another task's next
   successful apply installs the rule.
   */
  lemma FailedSetIsRemembered(
      config: Config, w: World, usage: UsageId, port: nat, target: DnatTarget, io: Io, next: Io)
    requires Accepts(w.policy, usage, target)
    requires var tried := Step(config, w, Set(usage, port, target, io)); Installs(config, tried, ReconcileBase(next))
    ensures TunnelDnat(port, target)
            in RulesOf(Step(config, Step(config, w, Set(usage, port, target, io)), ReconcileBase(next)).kernel)
  {
    var before := BeforeApply(config, w, Set(usage, port, target, io)).value;
    ApplyKeepsIntent(config, before, io);
    var tried := Step(config, w, Set(usage, port, target, io));
    ApplyKeepsIntent(config, tried, next);
    assert before.policy.desired[usage] == TunnelDnat(port, target);
  }

  // -------------------------------------------------------------- what each call asks for

  /** Usage `u` is wanted in the one policy exactly as in the other. */
  predicate SameWish(p: Policy, p': Policy, u: UsageId) {
    (u in p.desired <==> u in p'.desired) && (u in p.desired ==> p.desired[u] == p'.desired[u])
  }

  /** Exactly the rules of the wanted usages are installed. */
  ghost predicate InstalledAsWanted(w: World) {
    w.kernel.Some? && forall d :: d in RulesOf(w.kernel) <==> exists u <- w.policy.desired :: w.policy.desired[u] == d
  }

  lemma InstallsAsWanted(config: Config, w: World, e: Event)
    requires Installs(config, w, e) && !Merges(config, w.kernel, e.io)
    ensures InstalledAsWanted(Step(config, w, e))
  {
    RulesBeforeApply(config, w, e);
    ApplyKeepsIntent(config, BeforeApply(config, w, e).value, e.io);
  }

  /**
   A clear takes away one wish and no other, whether or not its apply succeeds; if it does, and knows
   of the old table, exactly the other usages' rules are installed.
   */
  lemma ClearTakesOneWish(config: Config, w: World, usage: UsageId, io: Io)
    ensures var w' := Step(config, w, Clear(usage, io));
            && usage !in w'.policy.desired
            && (forall u | u != usage :: SameWish(w.policy, w'.policy, u))
            && w'.policy.allowed == w.policy.allowed
            && (ReplacesKernel(config, w.kernel, io) && !Merges(config, w.kernel, io) ==>
                  forall d :: d in RulesOf(w'.kernel) <==>
                    exists u <- w.policy.desired :: u != usage && w.policy.desired[u] == d)
  {
    var e := Clear(usage, io);
    var w' := Step(config, w, e);
    ApplyKeepsIntent(config, BeforeApply(config, w, e).value, io);
    if ReplacesKernel(config, w.kernel, io) && !Merges(config, w.kernel, io) {
      InstallsAsWanted(config, w, e);
      forall d
        ensures d in RulesOf(w'.kernel) <==> exists u <- w.policy.desired :: u != usage && w.policy.desired[u] == d
      {
        if u :| u in w'.policy.desired && w'.policy.desired[u] == d { assert SameWish(w.policy, w'.policy, u); }
        if u :| u in w.policy.desired && u != usage && w.policy.desired[u] == d {
          assert SameWish(w.policy, w'.policy, u);
        }
      }
    }
  }

  /** A set that is accepted asks for the tunnel-side port to lead to the target, and for nothing else. */
  lemma SetAddsOneWish(config: Config, w: World, usage: UsageId, port: nat, target: DnatTarget, io: Io)
    ensures var w' := Step(config, w, Set(usage, port, target, io));
            if !(w.policy.allowed && usage in w.policy.targets && w.policy.targets[usage] == target) then w' == w
            else
              && usage in w'.policy.desired
              && w'.policy.desired[usage] == Dnat(port, target.address, target.port)
              && (forall u | u != usage :: SameWish(w.policy, w'.policy, u))
              && (ReplacesKernel(config, w.kernel, io) && !Merges(config, w.kernel, io) ==> InstalledAsWanted(w'))
  {
    var e := Set(usage, port, target, io);
    if Accepts(w.policy, usage, target) {
      ApplyKeepsIntent(config, BeforeApply(config, w, e).value, io);
      if ReplacesKernel(config, w.kernel, io) && !Merges(config, w.kernel, io) { InstallsAsWanted(config, w, e); }
    }
  }

  /** Some client of the listing gives usage `u` this target. */
  ghost predicate LeadsTo(listing: seq<Client>, u: UsageId, t: DnatTarget) {
    exists i: nat :: Resolves(listing, i, u, t)
  }

  /**
   A reconcile that hears its listing keeps a wish, unchanged, exactly if the old and the new listing
   lead its usage to the same target; it permits and forbids nothing.
   */
  lemma ReconcileKeepsWishIff(config: Config, w: World, listing: seq<Client>, first: Io, io: Io, u: UsageId)
    requires Sound(w) && Hears(config, w, Reconcile(listing, first, io))
    ensures var w' := Step(config, w, Reconcile(listing, first, io));
            && (u in w'.policy.desired <==>
                  u in w.policy.desired && forall t :: LeadsTo(w.known, u, t) <==> LeadsTo(listing, u, t))
            && (u in w'.policy.desired ==> w'.policy.desired[u] == w.policy.desired[u])
            && w'.policy.allowed == w.policy.allowed
  {
    var e := Reconcile(listing, first, io);
    var before := BeforeApply(config, w, e).value;
    ApplyKeepsIntent(config, before, io);
    var past, next := SelectTargets(w.known), SelectTargets(listing);
    forall t ensures LeadsTo(w.known, u, t) <==> u in past && past[u] == t { SelectedIff(w.known, u, t); }
    forall t ensures LeadsTo(listing, u, t) <==> u in next && next[u] == t { SelectedIff(listing, u, t); }
    assert u in before.policy.desired <==> u in w.policy.desired && SameTarget(past, next, u);
    if forall t :: LeadsTo(w.known, u, t) <==> LeadsTo(listing, u, t) {
      assert u in past ==> LeadsTo(listing, u, past[u]);
      assert u in next ==> LeadsTo(w.known, u, next[u]);
      assert SameTarget(past, next, u);
    }
  }

  /** Permission comes with an enable and goes with a disable, which also forgets every wish. */
  lemma EnableAndDisable(config: Config, w: World, io: Io)
    ensures Step(config, w, Enable) == w.(policy := w.policy.(allowed := true))
    ensures var off := Step(config, w, Disable(io)); !off.policy.allowed && off.policy.desired == map[]
  {
    ApplyKeepsIntent(config, BeforeApply(config, w, Disable(io)).value, io);
  }
}
