/** Applying a profile revision: the transaction of src/profile_manager.rs, its commands and its rollback. */
module ProfileManager {
  import opened Basics
  import opened WireGuardProfile
  import opened Tunnel

  datatype ActiveProfile = ActiveProfile(revision: string, profile: Profile)

  datatype Lifecycle = Applying | Active | ApplyFailed | Idle

  /** Where DNS queries go: the profile's first IPv4 server, or the first configured address. */
  function DnsUpstream(config: Config, p: Profile): Option<Addr> {
    match config.upstream
    case FromProfile => if Ipv4Dns(p) == [] then None else Some(Addr(false, Ipv4Dns(p)[0]))
    case Explicit(addresses) => if addresses == [] then None else addresses[0]
  }

  predicate Capable(config: Config, p: Profile) {
    !(config.dnsEnabled && config.upstream.FromProfile? && Ipv4Dns(p) == [])
  }

  /** What the outside world answers during one apply. */
  datatype Io = Io(
    guiManaged: bool, loaded: Option<Profile>, baseApplied: bool, evidence: bool, activated: bool, listed: bool,
    fails: set<nat>)

  datatype Outcome =
    | Refused
    | BaseFailed
    | Committed(kind: ApplyKind)
    | CommittedUnlisted(kind: ApplyKind)
    | Failed(kind: ApplyKind, rolledBack: bool)

  /** Whatever happens, the last-resort routes stay and routes go with their device. */
  predicate Guarded(before: Kernel, after: Kernel) {
    && (before.fence4.unreachable ==> after.fence4.unreachable)
    && (before.fence6.unreachable ==> after.fence6.unreachable)
    && (before.Valid() ==> after.Valid())
  }

  /** Configuring adds routes and keeps the interface. */
  predicate Grown(before: Kernel, after: Kernel) {
    Guarded(before, after) && after.link == before.link && before.services <= after.services
  }

  lemma ObsoleteNext(previous: seq<nat>, desired: set<nat>, n: nat)
    requires n < |previous|
    ensures Obsolete(previous[..n + 1], desired)
            == Obsolete(previous[..n], desired) + if previous[n] in desired then {} else {previous[n]}
  {
    assert previous[..n + 1] == previous[..n] + [previous[n]];
  }

  /** None of the commands numbered from `start` to before `end` fails. */
  predicate AllSucceed(fails: set<nat>, start: nat, end: nat) { forall i | start <= i < end :: i !in fails }

  // -------------------------------------------------- how far a failing configuration gets

  /** The two rules of a family are deleted, then added again; command `at` adds the first. */
  function RulesReached(fence: Fence, fails: set<nat>, at: nat): Fence {
    Fence(fence.unreachable, at !in fails, AllSucceed(fails, at, at + 2))
  }

  function FenceReached(fence: Fence, fails: set<nat>, at: nat): Fence {
    RulesReached(fence.(unreachable := fence.unreachable || AllSucceed(fails, at, at + 3)), fails, at)
  }

  /** The commands of a configuration: how many service routes, whether there is IPv6, and its default route. */
  datatype Plan = Plan(routes: nat, ipv6: bool, carries: bool) {
    /** The last-resort route, the tunnel's default if there is to be one, and the rules. */
    function Ipv6Commands(): nat { if !ipv6 then 0 else if carries then 4 else 3 }

    /** Two rules, two routes, the service routes and the IPv6 commands. */
    function Commands(): nat { 4 + routes + Ipv6Commands() }

    /** All of them succeed, numbered from `at`. */
    predicate Completes(fails: set<nat>, at: nat) { AllSucceed(fails, at, at + Commands()) }
  }

  function PlanFor(config: Config, dns: seq<nat>, carries: bool): Plan {
    Plan(|ServiceRoutes(config, dns)|, config.ipv6Routing, carries)
  }

  /** An interface to bring up and how to configure it. */
  datatype Setup = Setup(link: Link, plan: Plan)

  function SetupOf(config: Config, p: Profile): Setup {
    Setup(LinkOf(p), PlanFor(config, Ipv4Dns(p), CarriesIpv6(p)))
  }

  function Ipv6Reached(plan: Plan, k: Kernel, fails: set<nat>, at: nat): Kernel {
    var rules := at + plan.Ipv6Commands() - 2;
    if !plan.ipv6 || at in fails then k
    else
      var last := k.(fence6 := k.fence6.(unreachable := true));
      if !AllSucceed(fails, at, rules) then last
      else last.(default6 := plan.carries, fence6 := RulesReached(last.fence6, fails, rules))
  }

  /** The IPv4 part: the rules, the last-resort route and the tunnel's default. */
  function Ipv4Reached(k: Kernel, fails: set<nat>, at: nat): Kernel {
    var fenced := k.(fence4 := FenceReached(k.fence4, fails, at));
    if k.link.Some? && AllSucceed(fails, at, at + 4) then fenced.(default4 := true) else fenced
  }

  /** The kernel a configuration leaves, service routes aside, its commands numbered from `at`. */
  function Reached(plan: Plan, k: Kernel, fails: set<nat>, at: nat): Kernel {
    var four := Ipv4Reached(k, fails, at);
    var ipv6 := at + 4 + plan.routes;
    if k.link.None? || !AllSucceed(fails, at, ipv6) then four else Ipv6Reached(plan, four, fails, ipv6)
  }

  predicate IsReached(plan: Plan, k: Kernel, fails: set<nat>, at: nat, after: Kernel) {
    after == Reached(plan, k, fails, at).(services := after.services)
  }

  lemma SucceedTogether(fails: set<nat>, a: nat, b: nat, c: nat)
    requires a <= b <= c
    ensures AllSucceed(fails, a, c) <==> AllSucceed(fails, a, b) && AllSucceed(fails, b, c)
  {
  }

  lemma Ipv6ReachedAll(plan: Plan, k: Kernel, fails: set<nat>, at: nat)
    requires AllSucceed(fails, at, at + plan.Ipv6Commands())
    ensures Ipv6Reached(plan, k, fails, at)
            == if plan.ipv6 then k.(fence6 := FENCED, default6 := plan.carries) else k
  {
  }

  lemma ReachedAll(config: Config, k: Kernel, dns: seq<nat>, carries: bool, fails: set<nat>, at: nat)
    requires k.link.Some? && PlanFor(config, dns, carries).Completes(fails, at)
    ensures Configured(config, k, dns, carries)
            == Reached(PlanFor(config, dns, carries), k, fails, at)
               .(services := k.services + ServiceRoutes(config, dns))
  {
    var plan := PlanFor(config, dns, carries);
    SucceedTogether(fails, at, at + 4, at + plan.Commands());
    SucceedTogether(fails, at, at + 4 + plan.routes, at + plan.Commands());
    Ipv6ReachedAll(plan, Ipv4Reached(k, fails, at), fails, at + 4 + plan.routes);
  }

  /**
   Which failures leave a family without the rule that sends its enrolled traffic to the tunnel's
   table: the rules are deleted first, so a family loses its rule exactly when its turn comes and
   one of the two rules cannot be added again.
   */
  lemma RulesStandIff(plan: Plan, k: Kernel, fails: set<nat>, at: nat)
    ensures var after := Reached(plan, k, fails, at);
            var rules6 := at + plan.Commands() - 2;
            && (after.fence4.subnet <==> AllSucceed(fails, at, at + 2))
            && (after.fence6.subnet <==>
                  if k.link.Some? && plan.ipv6 && AllSucceed(fails, at, rules6)
                  then AllSucceed(fails, rules6, rules6 + 2) else k.fence6.subnet)
  {
    if plan.ipv6 { SucceedTogether(fails, at, at + 4 + plan.routes, at + plan.Commands() - 2); }
  }

  // ----------------------------------------------------------------- when traffic is blocked

  /** Enrolled traffic of some family is sent to the tunnel's table and finds the tunnel there. */
  predicate Carries(k: Kernel) { (k.default4 && k.fence4.subnet) || (k.default6 && k.fence6.subnet) }

  predicate Blocked(k: Kernel) { !Carries(k) }

  /** The tunnel as taking it down leaves it; command `at` does that. */
  function TakenDown(before: Kernel, at: nat, fails: set<nat>): Kernel {
    if at in fails then before else Down(before)
  }

  /** A restore gets as far as bringing the previous interface up. */
  predicate BringsUp(before: Kernel, at: nat, fails: set<nat>) {
    at + 1 !in fails && TakenDown(before, at, fails).link.None?
  }

  function Raised(before: Kernel, at: nat, fails: set<nat>, link: Link): Kernel {
    TakenDown(before, at, fails).(link := Some(link))
  }

  /** The IPv6 rule is as the latest configuration that came to it left it. */
  predicate Ipv6RuleStands(plan: Plan, before: bool, at: nat, fails: set<nat>) {
    var first, second := at + 2 + plan.Commands(), at + 2 + 2 * plan.Commands();
    if plan.ipv6 && AllSucceed(fails, at + 2, second - 2) then AllSucceed(fails, second - 2, second)
    else if plan.ipv6 && AllSucceed(fails, at + 2, first - 2) then AllSucceed(fails, first - 2, first)
    else before
  }

  /**
   What a restore leaves of the tunnel it began with, its commands numbered from `at`: down, up,
   configured, and if that succeeds configured once more.
   */
  predicate Ends(setup: Option<Setup>, before: Kernel, at: nat, fails: set<nat>, after: Kernel) {
    if setup.None? || !BringsUp(before, at, fails) then after == TakenDown(before, at, fails)
    else
      var plan := setup.value.plan;
      var again := at + 2 + plan.Commands();
      && after.link == Some(setup.value.link)
      && (after.fence4.subnet <==>
            if plan.Completes(fails, at + 2) then AllSucceed(fails, again, again + 2)
            else AllSucceed(fails, at + 2, at + 4))
      && (after.fence4.unreachable <==> before.fence4.unreachable || AllSucceed(fails, at + 2, at + 5))
      && (after.default4 <==> AllSucceed(fails, at + 2, at + 6))
      && (after.default6 <==> plan.ipv6 && plan.carries && AllSucceed(fails, at + 2, again - 2))
      && (after.fence6.subnet <==> Ipv6RuleStands(plan, before.fence6.subnet, at, fails))
  }

  lemma FirstReached(plan: Plan, k: Kernel, fails: set<nat>, at: nat)
    requires k.link.Some? && !k.default4 && !k.default6
    ensures var after := Reached(plan, k, fails, at);
            var end := at + plan.Commands();
            && after.link == k.link
            && (after.fence4.unreachable <==> k.fence4.unreachable || AllSucceed(fails, at, at + 3))
            && (after.default4 <==> AllSucceed(fails, at, at + 4))
            && (after.default6 <==> plan.ipv6 && plan.carries && AllSucceed(fails, at, end - 2))
  {
    if plan.ipv6 { SucceedTogether(fails, at, at + 4 + plan.routes, at + plan.Commands() - 2); }
  }

  /** Configuring again deletes the rules first, but leaves the routes. */
  lemma AgainReached(plan: Plan, k: Kernel, fails: set<nat>, at: nat)
    requires k.link.Some? && k.default4 && k.fence4.unreachable && (k.default6 <==> plan.ipv6 && plan.carries)
    ensures var after := Reached(plan, k, fails, at);
            && after.link == k.link && after.default4 && after.fence4.unreachable
            && (after.default6 <==> plan.ipv6 && plan.carries)
  {
  }

  lemma StopsShort(setup: Setup, before: Kernel, at: nat, fails: set<nat>, after: Kernel)
    requires before.Valid() && BringsUp(before, at, fails) && !setup.plan.Completes(fails, at + 2)
    requires IsReached(setup.plan, Raised(before, at, fails, setup.link), fails, at + 2, after)
    ensures Ends(Some(setup), before, at, fails, after)
  {
    var plan, up := setup.plan, Raised(before, at, fails, setup.link);
    FirstReached(plan, up, fails, at + 2);
    RulesStandIff(plan, up, fails, at + 2);
  }

  /** Up and configured, from what was before. */
  predicate IsUp(setup: Setup, before: Kernel, after: Kernel) {
    && after.link == Some(setup.link) && after.default4 && after.fence4 == FENCED
    && (after.default6 <==> setup.plan.ipv6 && setup.plan.carries)
    && after.fence6 == if setup.plan.ipv6 then FENCED else before.fence6
  }

  lemma ConfiguresAgain(setup: Setup, before: Kernel, at: nat, fails: set<nat>, middle: Kernel, after: Kernel)
    requires before.Valid() && BringsUp(before, at, fails) && setup.plan.Completes(fails, at + 2)
    requires IsUp(setup, before, middle)
    requires IsReached(setup.plan, middle, fails, at + 2 + setup.plan.Commands(), after)
    ensures Ends(Some(setup), before, at, fails, after)
  {
    var plan, again := setup.plan, at + 2 + setup.plan.Commands();
    AgainReached(plan, middle, fails, again);
    RulesStandIff(plan, middle, fails, again);
    SucceedTogether(fails, at + 2, at + 6, again);
    if plan.ipv6 {
      SucceedTogether(fails, at + 2, again - 2, again);
      SucceedTogether(fails, at + 2, again, again + plan.Commands() - 2);
    }
  }

  /** Whether nothing enters the tunnel, by what stood before the restore and which of its commands fail. */
  predicate StaysBlocked(setup: Option<Setup>, before: Kernel, at: nat, fails: set<nat>) {
    if setup.None? || !BringsUp(before, at, fails) then at !in fails || Blocked(before)
    else
      var plan := setup.value.plan;
      var again := at + 2 + plan.Commands();
      || !AllSucceed(fails, at + 2, at + 6)
      || (plan.Completes(fails, at + 2) && !AllSucceed(fails, again, again + 2) && !(plan.ipv6 && plan.carries))
  }

  lemma BlockedIff(setup: Option<Setup>, before: Kernel, at: nat, fails: set<nat>, after: Kernel)
    requires before.Valid() && Ends(setup, before, at, fails, after)
    ensures Blocked(after) <==> StaysBlocked(setup, before, at, fails)
  {
    if setup.Some? && BringsUp(before, at, fails) {
      var plan := setup.value.plan;
      var again := at + 2 + plan.Commands();
      SucceedTogether(fails, at + 2, at + 4, at + 6);
      if plan.ipv6 {
        SucceedTogether(fails, at + 2, at + 6, again - 2);
        SucceedTogether(fails, at + 2, again - 2, again);
        SucceedTogether(fails, at + 2, again, again + plan.Commands() - 2);
        SucceedTogether(fails, again, again + 2, again + plan.Commands() - 2);
      }
    }
  }

  // ---------------------------------------------------------------------------- the manager

  function SetupFor(config: Config, active: Option<ActiveProfile>): Option<Setup> {
    if active.None? then None else Some(SetupOf(config, active.value.profile))
  }

  function DnsOf(active: Option<ActiveProfile>): seq<nat> {
    if active.None? then [] else Ipv4Dns(active.value.profile)
  }

  /** The manager's fields, with the tunnel the latest restore began with and the number of its first command. */
  datatype Status = Status(
    kernel: Kernel, count: nat, active: Option<ActiveProfile>, lifecycle: Lifecycle, published: Option<Addr>,
    attempt: Kernel, restoreAt: nat)

  /** The active profile's tunnel is up and its DNS is published. */
  predicate InForce(config: Config, s: Status) {
    && s.active.Some? && Settled(config, s.kernel, s.active.value.profile)
    && s.published == DnsUpstream(config, s.active.value.profile)
  }

  /** A commit: the candidate is active and published, and settled exactly where its action could settle it. */
  predicate Commits(config: Config, before: Status, revision: string, candidate: Profile, kind: ApplyKind,
                    after: Status) {
    && after.active == Some(ActiveProfile(revision, candidate)) && after.lifecycle == Active
    && after.published == DnsUpstream(config, candidate) && after.kernel.link.Some?
    && (Settled(config, after.kernel, candidate) <==>
          SettlesFrom(config, before.kernel, kind, candidate, DnsOf(before.active)))
    && (kind.NoChange? ==> after.kernel == before.kernel)
  }

  /** What a restore leaves, and whether anything enters the tunnel then. */
  predicate Ended(setup: Option<Setup>, s: Status, fails: set<nat>) {
    && Ends(setup, s.attempt, s.restoreAt, fails, s.kernel)
    && (Blocked(s.kernel) <==> StaysBlocked(setup, s.attempt, s.restoreAt, fails))
  }

  lemma EndsBlockedIff(setup: Option<Setup>, s: Status, fails: set<nat>)
    requires s.attempt.Valid() && Ends(setup, s.attempt, s.restoreAt, fails, s.kernel)
    ensures Ended(setup, s, fails)
  {
    BlockedIff(setup, s.attempt, s.restoreAt, fails, s.kernel);
  }

  /** A restore settled the active profile again, or left what an unfinished one leaves. */
  predicate Undone(config: Config, io: Io, rolledBack: bool, after: Status) {
    && Ended(SetupFor(config, after.active), after, io.fails)
    && (rolledBack ==>
          && after.active.Some? && Settled(config, after.kernel, after.active.value.profile)
          && BringsUp(after.attempt, after.restoreAt, io.fails))
  }

  /** A failure: the previous profile stays active and its restore ends. */
  predicate Fails(config: Config, before: Status, io: Io, rolledBack: bool, after: Status) {
    && after.active == before.active && after.lifecycle == ApplyFailed
    && Undone(config, io, rolledBack, after)
    && (rolledBack && InForce(config, before) ==> InForce(config, after))
  }

  /** How a transaction ends, given what the outside world answers. */
  predicate Concludes(config: Config, before: Status, revision: string, candidate: Profile, kind: ApplyKind, io: Io,
                      after: Status, outcome: Outcome)
  {
    && Guarded(before.kernel, after.kernel)
    && (match outcome
        case Committed(k) => k == kind && io.listed && Commits(config, before, revision, candidate, kind, after)
        case CommittedUnlisted(k) =>
          k == kind && !io.listed && Commits(config, before, revision, candidate, kind, after)
        case Failed(k, rolledBack) => k == kind && Fails(config, before, io, rolledBack, after)
        case _ => false)
    && (io.fails == {} && io.evidence && io.activated && (before.kernel.link.Some? || kind.TunnelRecycle?) ==>
          !outcome.Failed?)
    && (kind.TunnelRecycle? && before.count + 1 in io.fails ==> outcome.Failed? && after.restoreAt == before.count + 2)
    && (kind.NoChange? && !io.evidence ==>
          outcome.Failed? && after.restoreAt == before.count && after.attempt == before.kernel)
  }

  lemma FailureConcludes(config: Config, before: Status, revision: string, candidate: Profile, kind: ApplyKind, io: Io,
                         applied: bool, restored: bool, after: Status)
    requires Guarded(before.kernel, after.kernel) && after.active == before.active && after.lifecycle == ApplyFailed
    requires Undone(config, io, restored, after)
    requires after.published ==
             if restored && !applied then DnsUpstream(config, after.active.value.profile) else before.published
    requires !applied || !io.activated
    requires io.fails == {} && io.evidence && (before.kernel.link.Some? || kind.TunnelRecycle?) ==> applied
    requires kind.TunnelRecycle? && before.count + 1 in io.fails ==> after.restoreAt == before.count + 2
    requires kind.NoChange? && !io.evidence ==> after.restoreAt == before.count && after.attempt == before.kernel
    ensures Concludes(config, before, revision, candidate, kind, io, after, Failed(kind, restored))
  {
  }

  lemma CommitConcludes(config: Config, before: Status, revision: string, candidate: Profile, kind: ApplyKind, io: Io,
                        after: Status)
    requires Guarded(before.kernel, after.kernel) && Commits(config, before, revision, candidate, kind, after)
    requires io.evidence && (kind.TunnelRecycle? ==> before.count + 1 !in io.fails)
    ensures Concludes(config, before, revision, candidate, kind, io, after,
                      if io.listed then Committed(kind) else CommittedUnlisted(kind))
  {
  }

  class Manager {
    const codec: Codec
    const config: Config
    var kernel: Kernel
    /** How many checked commands have run. */
    var count: nat
    var active: Option<ActiveProfile>
    var lifecycle: Lifecycle
    var published: Option<Addr>
    /** The tunnel the latest restore began with, and the number of its first command. */
    ghost var attempt: Kernel
    ghost var restoreAt: nat

    constructor (codec: Codec, config: Config, kernel: Kernel)
      ensures this.codec == codec && this.config == config && this.kernel == kernel
      ensures count == 0 && active == None && lifecycle == Idle && published == None
    {
      this.codec, this.config, this.kernel := codec, config, kernel;
      count, active, lifecycle, published := 0, None, Idle, None;
      attempt, restoreAt := kernel, 0;
    }

    method Checked(fails: set<nat>) returns (ok: bool)
      modifies this`count
      ensures count == old(count) + 1 && (ok <==> old(count) !in fails)
    {
      ok := count !in fails;
      count := count + 1;
    }

    // ----------------------------------------------------------------------- routes

    /** Replaces the two rules of one family; a delete that finds nothing is ignored. */
    method ReplaceRules(fails: set<nat>, fence: Fence) returns (ok: bool, after: Fence)
      modifies this`count
      ensures after == RulesReached(fence, fails, old(count))
      ensures ok <==> AllSucceed(fails, old(count), old(count) + 2)
      ensures ok ==> count == old(count) + 2
    {
      after := fence.(subnet := false, local := false);
      ok := Checked(fails);
      if !ok { return; }
      after := after.(local := true);
      ok := Checked(fails);
      if !ok { return; }
      after := after.(subnet := true);
    }

    method ConfigureIpv4Fence(fails: set<nat>) returns (ok: bool)
      modifies this`kernel, this`count
      ensures Grown(old(kernel), kernel) && kernel == old(kernel).(fence4 := kernel.fence4)
      ensures ok <==> AllSucceed(fails, old(count), old(count) + 3)
      ensures kernel.fence4 == FenceReached(old(kernel).fence4, fails, old(count))
      ensures ok ==> count == old(count) + 3
    {
      var fence;
      ok, fence := ReplaceRules(fails, kernel.fence4);
      kernel := kernel.(fence4 := fence);
      if !ok { return; }
      ok := Checked(fails);
      if !ok { return; }
      kernel := kernel.(fence4 := kernel.fence4.(unreachable := true));
    }

    /** Routes each destination in turn, in some order. */
    method AddServices(fails: set<nat>, routes: set<nat>) returns (ok: bool)
      requires kernel.link.Some?
      modifies this`kernel, this`count
      ensures Grown(old(kernel), kernel) && kernel == old(kernel).(services := kernel.services)
      ensures ok <==> AllSucceed(fails, old(count), old(count) + |routes|)
      ensures ok ==> count == old(count) + |routes| && kernel.services == old(kernel).services + routes
    {
      ghost var before, start := kernel, count;
      var pending, routed := routes, kernel.services;
      while pending != {}
        invariant pending <= routes && routed == before.services + (routes - pending)
        invariant count + |pending| == start + |routes| && AllSucceed(fails, start, count)
        invariant kernel == before.(services := routed)
        decreases |pending|
      {
        var destination :| destination in pending;
        ok := Checked(fails);
        if !ok { return; }
        routed := routed + {destination};
        kernel := kernel.(services := routed);
        pending := pending - {destination};
      }
      ok := true;
    }

    method ConfigureIpv6Routes(fails: set<nat>, carries: bool, ghost plan: Plan) returns (ok: bool)
      requires kernel.link.Some? && plan.ipv6 == config.ipv6Routing && plan.carries == carries
      modifies this`kernel, this`count
      ensures Grown(old(kernel), kernel) && kernel == Ipv6Reached(plan, old(kernel), fails, old(count))
      ensures ok <==> AllSucceed(fails, old(count), old(count) + plan.Ipv6Commands())
      ensures ok ==> count == old(count) + plan.Ipv6Commands()
    {
      if !config.ipv6Routing { return true; }
      ok := Checked(fails);
      if !ok { return; }
      kernel := kernel.(fence6 := kernel.fence6.(unreachable := true));
      if carries {
        ok := Checked(fails);
        if !ok { return; }
      }
      kernel := kernel.(default6 := carries);
      var fence;
      ok, fence := ReplaceRules(fails, kernel.fence6);
      kernel := kernel.(fence6 := fence);
    }

    /** The tunnel's default route is the fourth command; nothing is routed through it before. */
    method ConfigureIpv4Routes(fails: set<nat>) returns (ok: bool)
      modifies this`kernel, this`count
      ensures Grown(old(kernel), kernel) && kernel == Ipv4Reached(old(kernel), fails, old(count))
      ensures ok <==> kernel.link.Some? && AllSucceed(fails, old(count), old(count) + 4)
      ensures ok ==> count == old(count) + 4
    {
      ghost var at := count;
      ok := ConfigureIpv4Fence(fails);
      SucceedTogether(fails, at, at + 3, at + 4);
      if !ok { return; }
      ok := Checked(fails);
      if !ok || kernel.link.None? { return false; }
      kernel := kernel.(default4 := true);
    }

    method ConfigureGatewayRoutes(fails: set<nat>, dns: seq<nat>, carries: bool) returns (ok: bool)
      modifies this`kernel, this`count
      ensures Grown(old(kernel), kernel)
      ensures IsReached(PlanFor(config, dns, carries), old(kernel), fails, old(count), kernel)
      ensures ok <==> kernel.link.Some? && PlanFor(config, dns, carries).Completes(fails, old(count))
      ensures ok ==> kernel == Configured(config, old(kernel), dns, carries)
      ensures ok ==> count == old(count) + PlanFor(config, dns, carries).Commands()
    {
      ghost var before, at, plan := kernel, count, PlanFor(config, dns, carries);
      SucceedTogether(fails, at, at + 4, at + 4 + plan.routes);
      SucceedTogether(fails, at, at + 4 + plan.routes, at + plan.Commands());
      ok := ConfigureIpv4Routes(fails);
      if !ok { return; }
      ok := AddServices(fails, ServiceRoutes(config, dns));
      if !ok { return; }
      ok := ConfigureIpv6Routes(fails, carries, plan);
      if ok { ReachedAll(config, before, dns, carries, fails, at); }
    }

    /** Removes the previous profile's DNS routes that nothing needs any more. */
    method RemoveObsolete(fails: set<nat>, previous: seq<nat>, desired: set<nat>) returns (ok: bool)
      modifies this`kernel, this`count
      ensures Guarded(old(kernel), kernel) && kernel == old(kernel).(services := kernel.services)
      ensures desired * old(kernel).services <= kernel.services
      ensures fails == {} ==> ok
      ensures ok ==> kernel.services == old(kernel).services - Obsolete(previous, desired)
    {
      ghost var before := kernel;
      var left := kernel.services;
      for n := 0 to |previous|
        invariant left == before.services - Obsolete(previous[..n], desired)
        invariant kernel == before.(services := left)
      {
        ObsoleteNext(previous, desired, n);
        if previous[n] in desired { continue; }
        ok := Checked(fails);
        if !ok { return; }
        left := left - {previous[n]};
        kernel := kernel.(services := left);
      }
      assert previous[..|previous|] == previous;
      ok := true;
    }

    method ReconcileGatewayRoutes(fails: set<nat>, previous: seq<nat>, dns: seq<nat>, carries: bool, ghost plan: Plan)
      returns (ok: bool)
      requires plan == PlanFor(config, dns, carries)
      modifies this`kernel, this`count
      ensures Guarded(old(kernel), kernel) && kernel.link == old(kernel).link
      ensures CapabilityRoutes(config) * old(kernel).services <= kernel.services
      ensures old(kernel).link.Some? && fails == {} ==> ok
      ensures ok ==> kernel.link.Some? && kernel == Reconciled(config, old(kernel), previous, dns, carries)
      ensures IsReached(plan, old(kernel), fails, old(count), kernel)
    {
      ok := ConfigureGatewayRoutes(fails, dns, carries);
      if !ok { return; }
      ok := RemoveObsolete(fails, previous, ServiceRoutes(config, dns));
    }

    // ----------------------------------------------------------------------- tunnel

    method WireguardDown(fails: set<nat>)
      modifies this`kernel, this`count
      ensures Guarded(old(kernel), kernel) && count == old(count) + 1
      ensures kernel == TakenDown(old(kernel), old(count), fails)
    {
      var ok := Checked(fails);
      if ok { kernel := Down(kernel); }
    }

    method WireguardUp(fails: set<nat>, p: Profile) returns (ok: bool)
      requires kernel.Valid()
      modifies this`kernel, this`count
      ensures Guarded(old(kernel), kernel)
      ensures ok <==> && old(kernel).link.None? && old(count) !in fails
                      && SetupOf(config, p).plan.Completes(fails, old(count) + 1)
      ensures ok ==> kernel == Up(config, old(kernel), p)
      ensures ok ==> count == old(count) + 1 + SetupOf(config, p).plan.Commands()
      ensures old(kernel).link.Some? || old(count) in fails ==> kernel == old(kernel) && count == old(count) + 1
      ensures old(kernel).link.None? && old(count) !in fails ==>
                IsReached(SetupOf(config, p).plan, old(kernel).(link := Some(LinkOf(p))), fails, old(count) + 1, kernel)
    {
      ok := Checked(fails);
      if !ok || kernel.link.Some? { return false; }
      kernel := kernel.(link := Some(LinkOf(p)));
      ok := ConfigureGatewayRoutes(fails, Ipv4Dns(p), CarriesIpv6(p));
    }

    /** Success means the tunnel really went down: a new interface cannot come up beside an old one. */
    method Recycle(fails: set<nat>, p: Profile, ghost setup: Setup) returns (ok: bool)
      requires kernel.Valid() && setup == SetupOf(config, p)
      modifies this`kernel, this`count
      ensures Guarded(old(kernel), kernel)
      ensures ok ==> kernel == Up(config, Down(old(kernel)), p) && IsUp(setup, old(kernel), kernel)
      ensures ok <==> BringsUp(old(kernel), old(count), fails) && setup.plan.Completes(fails, old(count) + 2)
      ensures ok ==> count == old(count) + 2 + setup.plan.Commands()
      ensures !ok ==> Ends(Some(setup), old(kernel), old(count), fails, kernel)
      ensures old(count) + 1 in fails ==> !ok && count == old(count) + 2
    {
      ghost var before, at := kernel, count;
      WireguardDown(fails);
      ok := WireguardUp(fails, p);
      if !ok && BringsUp(before, at, fails) { StopsShort(setup, before, at, fails, kernel); }
    }

    method RecycleAndReconcile(fails: set<nat>, p: Profile, previous: seq<nat>, ghost setup: Setup) returns (ok: bool)
      requires kernel.Valid() && setup == SetupOf(config, p)
      modifies this`kernel, this`count
      ensures Guarded(old(kernel), kernel)
      ensures fails == {} ==> ok
      ensures ok ==> kernel == Recycled(config, old(kernel), p, previous)
      ensures ok ==> BringsUp(old(kernel), old(count), fails)
      ensures Ends(Some(setup), old(kernel), old(count), fails, kernel)
      ensures old(count) + 1 in fails ==> !ok && count == old(count) + 2
    {
      ghost var before, at := kernel, count;
      ok := Recycle(fails, p, setup);
      if !ok { return; }
      ghost var middle := kernel;
      ok := ReconcileGatewayRoutes(fails, previous, Ipv4Dns(p), CarriesIpv6(p), setup.plan);
      ConfiguresAgain(setup, before, at, fails, middle, kernel);
    }

    method Syncconf(fails: set<nat>, p: Profile) returns (ok: bool)
      modifies this`kernel, this`count
      ensures Guarded(old(kernel), kernel)
      ensures ok <==> old(count) !in fails && old(kernel).link.Some?
      ensures ok ==> kernel == Synced(old(kernel), p)
    {
      ok := Checked(fails);
      if !ok || kernel.link.None? { return false; }
      kernel := Synced(kernel, p);
    }

    method ApplyCandidate(fails: set<nat>, candidate: Profile, kind: ApplyKind, previous: seq<nat>) returns (ok: bool)
      requires kernel.Valid()
      modifies this`kernel, this`count
      ensures Guarded(old(kernel), kernel)
      ensures fails == {} && (kind.TunnelRecycle? || old(kernel).link.Some?) ==> ok
      ensures ok && kind.TunnelRecycle? ==> kernel == Recycled(config, old(kernel), candidate, previous)
      ensures ok && old(kernel).link.Some? ==> kernel == Applied(config, old(kernel), kind, candidate, previous)
      ensures ok && old(kernel).link.None? && !kind.TunnelRecycle? ==> kernel == old(kernel)
      ensures kind.NoChange? ==> kernel == old(kernel) && count == old(count)
      ensures kind.TunnelRecycle? && old(count) + 1 in fails ==> !ok && count == old(count) + 2
    {
      match kind
      case NoChange => ok := true;
      case DnsReload =>
        ok := ReconcileGatewayRoutes(fails, previous, Ipv4Dns(candidate), CarriesIpv6(candidate),
                                     SetupOf(config, candidate).plan);
      case TunnelRecycle => ok := RecycleAndReconcile(fails, candidate, previous, SetupOf(config, candidate));
      case _ =>
        ok := Syncconf(fails, candidate);
        if ok { ok := ReconcileGatewayRoutes(fails, previous, Ipv4Dns(candidate), CarriesIpv6(candidate),
                                     SetupOf(config, candidate).plan); }
    }

    // ------------------------------------------------------------------ transaction

    ghost function View(): Status
      reads this
    {
      Status(kernel, count, active, lifecycle, published, attempt, restoreAt)
    }

    function Kind(candidate: Profile): ApplyKind
      reads this`active
    {
      if active.None? then TunnelRecycle else Diff(codec, active.value.profile, candidate)
    }

    method Restore(fails: set<nat>, candidate: Profile) returns (restored: bool)
      requires kernel.Valid()
      modifies this`kernel, this`count, this`attempt, this`restoreAt
      ensures Guarded(old(kernel), kernel) && attempt == old(kernel) && restoreAt == old(count)
      ensures restored ==> active.Some? && Settled(config, kernel, active.value.profile)
      ensures restored ==> BringsUp(attempt, restoreAt, fails)
      ensures Ended(SetupFor(config, active), View(), fails)
    {
      attempt, restoreAt := kernel, count;
      if active.Some? {
        restored := RecycleAndReconcile(fails, active.value.profile, Ipv4Dns(candidate),
                                         SetupOf(config, active.value.profile));
        RecycleSettles(config, attempt, active.value.profile, Ipv4Dns(candidate));
      } else {
        WireguardDown(fails);
        restored := false;
      }
      EndsBlockedIff(SetupFor(config, active), View(), fails);
    }

    /** Applies the candidate and looks for the interface; success settles it exactly from where that can. */
    method Attempt(candidate: Profile, kind: ApplyKind, io: Io) returns (ok: bool)
      requires kernel.Valid()
      modifies this`kernel, this`count
      ensures Guarded(old(kernel), kernel)
      ensures ok ==> kernel.link.Some?
      ensures ok ==> (Settled(config, kernel, candidate) <==>
                      SettlesFrom(config, old(kernel), kind, candidate, DnsOf(active)))
      ensures kind.NoChange? ==> kernel == old(kernel) && count == old(count)
      ensures ok ==> io.evidence
      ensures io.fails == {} && io.evidence && (kind.TunnelRecycle? || old(kernel).link.Some?) ==> ok
      ensures kind.TunnelRecycle? && old(count) + 1 in io.fails ==> !ok && count == old(count) + 2
    {
      ghost var before := kernel;
      ok := ApplyCandidate(io.fails, candidate, kind, DnsOf(active));
      ok := ok && io.evidence && kernel.link.Some?;
      if ok {
        if before.link.Some? { AppliedSettlesIff(config, before, kind, candidate, DnsOf(active)); }
        RecycleSettles(config, before, candidate, DnsOf(active));
      }
    }

    /** Restores what was active, and publishes its DNS again if asked to. */
    method RollBack(candidate: Profile, io: Io, publishes: bool) returns (restored: bool)
      requires kernel.Valid()
      modifies this`kernel, this`count, this`attempt, this`restoreAt, this`lifecycle, this`published
      ensures Guarded(old(kernel), kernel) && attempt == old(kernel) && restoreAt == old(count)
      ensures lifecycle == ApplyFailed && Undone(config, io, restored, View())
      ensures published == if restored && publishes then DnsUpstream(config, active.value.profile) else old(published)
    {
      restored := Restore(io.fails, candidate);
      if restored && publishes { published := DnsUpstream(config, active.value.profile); }
      lifecycle := ApplyFailed;
    }

    /** Gives up on a candidate, `before` being the status before it was attempted. */
    method GiveUp(revision: string, candidate: Profile, kind: ApplyKind, io: Io, applied: bool, ghost before: Status)
      returns (outcome: Outcome)
      requires kernel.Valid() && Guarded(before.kernel, kernel) && active == before.active
      requires published == before.published && (!applied || !io.activated)
      requires io.fails == {} && io.evidence && (before.kernel.link.Some? || kind.TunnelRecycle?) ==> applied
      requires kind.TunnelRecycle? && before.count + 1 in io.fails ==> count == before.count + 2
      requires kind.NoChange? && !io.evidence ==> count == before.count && kernel == before.kernel
      modifies this`kernel, this`count, this`attempt, this`restoreAt, this`lifecycle, this`published
      ensures Concludes(config, before, revision, candidate, kind, io, View(), outcome)
    {
      var restored := RollBack(candidate, io, !applied);
      FailureConcludes(config, before, revision, candidate, kind, io, applied, restored, View());
      outcome := Failed(kind, restored);
    }

    /** Applies, verifies and activates a candidate, or restores what was active before. */
    method Transact(revision: string, candidate: Profile, kind: ApplyKind, io: Io) returns (outcome: Outcome)
      requires kernel.Valid()
      modifies this
      ensures Concludes(config, old(View()), revision, candidate, kind, io, View(), outcome)
    {
      var ok := Attempt(candidate, kind, io);
      if ok && io.activated {
        active := Some(ActiveProfile(revision, candidate));
        published := DnsUpstream(config, candidate);
        lifecycle := Active;
        CommitConcludes(config, old(View()), revision, candidate, kind, io, View());
        return if io.listed then Committed(kind) else CommittedUnlisted(kind);
      }
      outcome := GiveUp(revision, candidate, kind, io, ok, old(View()));
    }

    method Apply(revision: string, io: Io) returns (outcome: Outcome)
      requires kernel.Valid()
      modifies this
      ensures outcome.Refused? <==> !io.guiManaged || io.loaded.None? || !Capable(config, io.loaded.value)
      ensures outcome.Refused? ==> View() == old(View())
      ensures outcome.BaseFailed? <==> !outcome.Refused? && !io.baseApplied
      ensures outcome.BaseFailed? ==> View() == old(View()).(lifecycle := Applying)
      ensures !outcome.Refused? && !outcome.BaseFailed? ==>
                Concludes(config, old(View()), revision, io.loaded.value, old(Kind(io.loaded.value)), io, View(),
                          outcome)
      ensures outcome.Failed? && !outcome.rolledBack ==>
                (Blocked(kernel) <==> StaysBlocked(SetupFor(config, active), attempt, restoreAt, io.fails))
    {
      if !io.guiManaged || io.loaded.None? { return Refused; }
      var candidate := io.loaded.value;
      if !Capable(config, candidate) { return Refused; }
      var kind := Kind(candidate);
      lifecycle := Applying;
      if !io.baseApplied { return BaseFailed; }
      outcome := Transact(revision, candidate, kind, io);
    }
  }

  lemma StopsAtFirstRule(config: Config, io: Io, rolledBack: bool, after: Status)
    requires after.active.Some? && Undone(config, io, rolledBack, after)
    requires after.restoreAt !in io.fails && after.restoreAt + 1 !in io.fails && after.restoreAt + 2 in io.fails
    ensures !rolledBack && Blocked(after.kernel) && !after.kernel.fence4.subnet
    ensures after.kernel.link == Some(LinkOf(after.active.value.profile))
  {
    var plan, at := SetupOf(config, after.active.value.profile).plan, after.restoreAt;
    assert !AllSucceed(io.fails, at + 2, at + 6) && !AllSucceed(io.fails, at + 2, at + 4);
    assert !plan.Completes(io.fails, at + 2);
    assert BringsUp(after.attempt, after.restoreAt, io.fails);
  }

  /** A candidate that cannot be brought up, and a restore that fails at its first rule. */
  lemma RestoreStopsAtFirstRule(config: Config, before: Status, candidate: Profile, io: Io, after: Status,
                                outcome: Outcome)
    requires before.kernel.Valid() && before.active.Some? && io.fails == {before.count + 1, before.count + 4}
    requires Concludes(config, before, "candidate", candidate, TunnelRecycle, io, after, outcome)
    ensures outcome == Failed(TunnelRecycle, false) && after.active == before.active && after.kernel.Valid()
    ensures after.kernel.link == Some(LinkOf(before.active.value.profile)) && Blocked(after.kernel)
    ensures !after.kernel.fence4.subnet
  {
    assert before.count + 1 in io.fails && after.restoreAt == before.count + 2;
    StopsAtFirstRule(config, io, outcome.rolledBack, after);
  }

  /** The profile that is active, applied again as unchanged. */
  lemma UnchangedCommits(config: Config, before: Status, revision: string, p: Profile, io: Io, after: Status,
                         outcome: Outcome)
    requires before.kernel.link.Some? && Blocked(before.kernel)
    requires io.fails == {} && io.evidence && io.activated && io.listed
    requires Concludes(config, before, revision, p, NoChange, io, after, outcome)
    ensures outcome == Committed(NoChange) && after.kernel == before.kernel && !Settled(config, after.kernel, p)
    ensures after.active == Some(ActiveProfile(revision, p))
  {
  }

  lemma SameProfileIsUnchanged(codec: Codec, p: Profile)
    ensures Diff(codec, p, p) == NoChange
  {
  }

  /** The interface is up, but neither a route nor the rule that leads to it is left. */
  method LeaveUnrouted(m: Manager, candidate: Profile) returns (outcome: Outcome)
    requires m.kernel.Valid() && m.active.Some? && m.Kind(candidate) == TunnelRecycle
    requires Capable(m.config, candidate)
    modifies m
    ensures outcome == Failed(TunnelRecycle, false) && m.active == old(m.active)
    ensures m.kernel.Valid() && m.kernel.link == Some(LinkOf(m.active.value.profile)) && Blocked(m.kernel)
    ensures !m.kernel.fence4.subnet
  {
    ghost var start := m.View();
    var io := Io(true, Some(candidate), true, true, true, true, {m.count + 1, m.count + 4});
    outcome := m.Apply("candidate", io);
    RestoreStopsAtFirstRule(m.config, start, candidate, io, m.View(), outcome);
  }

  method CommitUnrouted(m: Manager) returns (outcome: Outcome)
    requires m.kernel.Valid() && m.active.Some? && Capable(m.config, m.active.value.profile)
    requires m.kernel.link.Some? && Blocked(m.kernel)
    modifies m
    ensures outcome == Committed(NoChange) && m.active == old(m.active) && m.kernel == old(m.kernel)
    ensures !Settled(m.config, m.kernel, m.active.value.profile)
  {
    var active := m.active.value;
    ghost var start := m.View();
    SameProfileIsUnchanged(m.codec, active.profile);
    var io := Io(true, Some(active.profile), true, true, true, true, {});
    outcome := m.Apply(active.revision, io);
    UnchangedCommits(m.config, start, active.revision, active.profile, io, m.View(), outcome);
  }

  /**
   But a profile can be active without being in force, and then a commit need not settle: a candidate
   that cannot be brought up, a restore that brings the previous interface up and fails at its first
   rule, and then the previous profile applied again as unchanged is committed without any route.
   */
  method CommitWithoutRoutes(m: Manager, candidate: Profile) returns (failed: Outcome, outcome: Outcome)
    requires m.kernel.Valid() && m.active.Some? && m.Kind(candidate) == TunnelRecycle
    requires Capable(m.config, candidate) && Capable(m.config, m.active.value.profile)
    modifies m
    ensures failed == Failed(TunnelRecycle, false) && outcome == Committed(NoChange)
    ensures m.active == old(m.active)
    ensures m.kernel.link == Some(LinkOf(m.active.value.profile)) && Blocked(m.kernel)
    ensures !Settled(m.config, m.kernel, m.active.value.profile)
  {
    failed := LeaveUnrouted(m, candidate);
    outcome := CommitUnrouted(m);
  }

  /** An unchanged profile whose evidence does not come, and a tunnel that cannot be taken down. */
  lemma KeepsCarrying(config: Config, before: Status, revision: string, p: Profile, io: Io, after: Status,
                      outcome: Outcome)
    requires before.kernel.link.Some? && before.active.Some? && !io.evidence && io.fails == {before.count}
    requires Concludes(config, before, revision, p, NoChange, io, after, outcome)
    ensures outcome == Failed(NoChange, false) && after.kernel == before.kernel && after.active == before.active
  {
    assert TakenDown(before.kernel, before.count, io.fails).link.Some?;
  }

  /**
   A failure that is not rolled back is reported as leaving enrolled traffic blocked, but it need
   not be: the active profile, applied again without fresh evidence and with a tunnel that cannot
   be taken down, goes on carrying traffic.
   */
  method FailureWithTraffic(m: Manager) returns (outcome: Outcome)
    requires m.kernel.Valid() && m.active.Some? && Capable(m.config, m.active.value.profile)
    requires Settled(m.config, m.kernel, m.active.value.profile)
    modifies m
    ensures outcome == Failed(NoChange, false) && m.kernel == old(m.kernel) && !Blocked(m.kernel)
  {
    var active := m.active.value;
    ghost var start := m.View();
    var io := Io(true, Some(active.profile), true, false, true, true, {m.count});
    SameProfileIsUnchanged(m.codec, active.profile);
    outcome := m.Apply(active.revision, io);
    KeepsCarrying(m.config, start, active.revision, active.profile, io, m.View(), outcome);
  }
}
