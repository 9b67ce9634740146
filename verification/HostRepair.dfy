/**
 The host-side egress policy of src/host_policy.rs and its repair by the host agent: what the agent
 observes, which commands it issues and in which order, and what holds at every point of a repair
 whose commands may fail.
 */
module HostRepair {
  import opened Basics
  import opened Text

  // ------------------------------------------------------------------- policy and host

  datatype Ipv6Half = Ipv6Half(subnet: string, gateway: string)

  datatype HostPolicy = HostPolicy(
    subnet: string, bridge: string, gateway: string, routeTable: nat, priority: nat, ipv6: Option<Ipv6Half>)

  datatype RuleEntry = RuleEntry(priority: nat, src: string, srclen: nat, table: nat)

  datatype RouteEntry = RouteEntry(dst: string, dev: Option<string>, gateway: Option<string>, unreachable: bool)

  /** The policy's route table for one family: at most one route per destination and metric. */
  type Routes = map<(string, nat), RouteEntry>

  /** What the agent can see: the comments of its nftables table, if any, and rules and routes per family. */
  datatype Host = Host(table: Option<set<string>>, rules4: seq<RuleEntry>, routes4: Routes, rules6: seq<RuleEntry>,
                       routes6: Routes)

  /** How the host prints a prefix it was given, and reads and prints IPv6 addresses. */
  datatype Kernel = Kernel(prefix: string -> string, parse6: string -> Option<nat>, print6: nat -> string)

  ghost predicate Sound(k: Kernel) { forall v: nat :: k.parse6(k.print6(v)) == Some(v) }

  const UNREACHABLE_METRIC := U32_MAX
  const METRIC4 := 0
  const METRIC6 := 1024

  function Marker(policy: HostPolicy): string {
    "egressy-ipv6-kill-switch:" + (if policy.ipv6.None? then "disabled" else policy.ipv6.value.subnet)
  }

  function SplitPrefix(prefix: string): Option<(string, nat)> {
    var parts := SplitOnce(prefix, '/');
    if parts.None? then None
    else
      var length := ParseUnsigned(parts.value.1, 255);
      if length.None? then None else Some((parts.value.0, length.value))
  }

  // -------------------------------------------------------------------------- detection

  datatype Drift = Drift(
    ruleMissing: bool, subnetRouteMissing: bool, defaultRouteMissing: bool,
    tableMissing: bool, tableStale: bool, ipv6RuleMissing: bool, ipv6RoutesMissing: bool)

  const CLEAN := Drift(false, false, false, false, false, false, false)

  predicate RulePresent(rules: seq<RuleEntry>, policy: HostPolicy) {
    var prefix := SplitPrefix(policy.subnet);
    prefix.Some? && RuleEntry(policy.priority, prefix.value.0, prefix.value.1, policy.routeTable) in rules
  }

  predicate Unreachable(routes: Routes) {
    exists key <- routes :: routes[key].dst == "default" && routes[key].unreachable
  }

  predicate SubnetRoute(routes: Routes, subnet: string, bridge: string) {
    exists key <- routes :: routes[key].dst == subnet && routes[key].dev == Some(bridge)
  }

  predicate DefaultRoute(routes: Routes, policy: HostPolicy) {
    exists key <- routes ::
      routes[key].dst == "default" && routes[key].dev == Some(policy.bridge) &&
        routes[key].gateway == Some(policy.gateway)
  }

  predicate SameIpv6(k: Kernel, observed: string, expected: string) {
    k.parse6(observed).Some? && k.parse6(observed) == k.parse6(expected)
  }

  predicate Ipv6RulePresent(k: Kernel, rules: seq<RuleEntry>, policy: HostPolicy, half: Ipv6Half) {
    var prefix := SplitPrefix(half.subnet);
    && prefix.Some?
    && exists r <- rules ::
         r.priority == policy.priority && SameIpv6(k, r.src, prefix.value.0) && r.srclen == prefix.value.1
         && r.table == policy.routeTable
  }

  predicate Default6Route(k: Kernel, routes: Routes, bridge: string, gateway: string) {
    exists key <- routes ::
      && routes[key].dst == "default" && routes[key].dev == Some(bridge)
      && routes[key].gateway.Some? && SameIpv6(k, routes[key].gateway.value, gateway)
  }

  predicate Ipv6RoutesPresent(k: Kernel, routes: Routes, policy: HostPolicy, half: Ipv6Half) {
    && SubnetRoute(routes, half.subnet, policy.bridge)
    && Default6Route(k, routes, policy.bridge, half.gateway)
    && Unreachable(routes)
  }

  function DetectDrift(k: Kernel, policy: HostPolicy, h: Host): Drift {
    Drift(
      !RulePresent(h.rules4, policy),
      !SubnetRoute(h.routes4, policy.subnet, policy.bridge),
      !(DefaultRoute(h.routes4, policy) && Unreachable(h.routes4)),
      h.table.None?,
      h.table.Some? && Marker(policy) !in h.table.value,
      policy.ipv6.Some? && !Ipv6RulePresent(k, h.rules6, policy, policy.ipv6.value),
      policy.ipv6.Some? && !Ipv6RoutesPresent(k, h.routes6, policy, policy.ipv6.value))
  }

  // --------------------------------------------------------------------------- commands

  datatype Route = UnreachableDefault | ToSubnet | ViaGateway

  datatype Command =
    | InstallTable | ReplaceTable
    | DeleteRule4 | AddRule4 | ReplaceRoute4(route: Route)
    | ReplaceRoute6(route: Route) | DeleteRule6 | AddRule6
  {
    predicate Routing() { !InstallTable? && !ReplaceTable? }

    /** A command whose failure the agent ignores. */
    predicate Optional() { DeleteRule4? || DeleteRule6? }
  }

  const ROUTES := [UnreachableDefault, ToSubnet, ViaGateway]

  function TablePlan(drift: Drift): seq<Command> {
    if drift.tableMissing then [InstallTable] else if drift.tableStale then [ReplaceTable] else []
  }

  function Rule4Plan(drift: Drift): seq<Command> { if drift.ruleMissing then [DeleteRule4, AddRule4] else [] }

  function Routes4Plan(drift: Drift): seq<Command> {
    if drift.subnetRouteMissing || drift.defaultRouteMissing
    then [ReplaceRoute4(UnreachableDefault), ReplaceRoute4(ToSubnet), ReplaceRoute4(ViaGateway)] else []
  }

  function Routes6Plan(policy: HostPolicy, drift: Drift): seq<Command> {
    if drift.ipv6RoutesMissing && policy.ipv6.Some?
    then [ReplaceRoute6(UnreachableDefault), ReplaceRoute6(ToSubnet), ReplaceRoute6(ViaGateway)] else []
  }

  function Rule6Plan(policy: HostPolicy, drift: Drift): seq<Command> {
    if drift.ipv6RuleMissing && policy.ipv6.Some? then [DeleteRule6, AddRule6] else []
  }

  /** The commands the agent would issue for a drift, were none to fail. */
  function Plan(policy: HostPolicy, drift: Drift): seq<Command> {
    TablePlan(drift) + Rule4Plan(drift) + Routes4Plan(drift) + Routes6Plan(policy, drift) + Rule6Plan(policy, drift)
  }

  function RuleFor(k: Kernel, policy: HostPolicy, subnet: string): Option<RuleEntry> {
    var prefix := SplitPrefix(k.prefix(subnet));
    if prefix.None? then None else Some(RuleEntry(policy.priority, prefix.value.0, prefix.value.1, policy.routeTable))
  }

  function WithRule(rules: seq<RuleEntry>, rule: Option<RuleEntry>): seq<RuleEntry> {
    if rule.None? then rules else rules + [rule.value]
  }

  /** Deleting takes the first matching rule, if there is one. */
  function WithoutRule(rules: seq<RuleEntry>, rule: Option<RuleEntry>): seq<RuleEntry> {
    if rules == [] then []
    else if Some(rules[0]) == rule then rules[1..]
    else [rules[0]] + WithoutRule(rules[1..], rule)
  }

  function WithRoute(routes: Routes, route: RouteEntry, metric: nat): Routes { routes[(route.dst, metric) := route] }

  function Route4(k: Kernel, policy: HostPolicy, routes: Routes, route: Route): Routes {
    match route
    case UnreachableDefault => WithRoute(routes, RouteEntry("default", None, None, true), UNREACHABLE_METRIC)
    case ToSubnet => WithRoute(routes, RouteEntry(k.prefix(policy.subnet), Some(policy.bridge), None, false), METRIC4)
    case ViaGateway => WithRoute(routes, RouteEntry("default", Some(policy.bridge), Some(policy.gateway), false),
                                 METRIC4)
  }

  function Printed6(k: Kernel, address: string): string {
    var v := k.parse6(address);
    if v.None? then address else k.print6(v.value)
  }

  function Route6(k: Kernel, policy: HostPolicy, half: Ipv6Half, routes: Routes, route: Route): Routes {
    match route
    case UnreachableDefault => WithRoute(routes, RouteEntry("default", None, None, true), UNREACHABLE_METRIC)
    case ToSubnet => WithRoute(routes, RouteEntry(k.prefix(half.subnet), Some(policy.bridge), None, false), METRIC6)
    case ViaGateway =>
      WithRoute(routes, RouteEntry("default", Some(policy.bridge), Some(Printed6(k, half.gateway)), false), METRIC6)
  }

  /** The effect of a command that succeeds. */
  function Apply(k: Kernel, policy: HostPolicy, h: Host, c: Command): Host {
    match c
    case InstallTable => h.(table := Some((if h.table.None? then {} else h.table.value) + {Marker(policy)}))
    case ReplaceTable => h.(table := Some({Marker(policy)}))
    case DeleteRule4 => h.(rules4 := WithoutRule(h.rules4, RuleFor(k, policy, policy.subnet)))
    case AddRule4 => h.(rules4 := WithRule(h.rules4, RuleFor(k, policy, policy.subnet)))
    case ReplaceRoute4(r) => h.(routes4 := Route4(k, policy, h.routes4, r))
    case ReplaceRoute6(r) =>
      if policy.ipv6.None? then h else h.(routes6 := Route6(k, policy, policy.ipv6.value, h.routes6, r))
    case DeleteRule6 =>
      if policy.ipv6.None? then h else h.(rules6 := WithoutRule(h.rules6, RuleFor(k, policy, policy.ipv6.value.subnet)))
    case AddRule6 =>
      if policy.ipv6.None? then h else h.(rules6 := WithRule(h.rules6, RuleFor(k, policy, policy.ipv6.value.subnet)))
  }

  /** What a command leaves behind, whether it succeeds or fails. */
  function Outcome(k: Kernel, policy: HostPolicy, h: Host, c: Command, fails: bool): Host {
    if fails then h else Apply(k, policy, h, c)
  }

  /** The host after the first `n` commands of a plan, those numbered in `fails` having failed. */
  function HostAt(k: Kernel, policy: HostPolicy, h: Host, plan: seq<Command>, fails: set<nat>, n: nat): Host
    requires n <= |plan|
  {
    if n == 0 then h else Outcome(k, policy, HostAt(k, policy, h, plan, fails, n - 1), plan[n - 1], n - 1 in fails)
  }

  /** The agent gets past the first `n` commands: only ignorable ones failed. */
  predicate Proceeds(plan: seq<Command>, fails: set<nat>, n: nat)
    requires n <= |plan|
  {
    forall i: nat | i < n :: i in fails ==> plan[i].Optional()
  }

  /** Where a repair ends: past the whole plan, or just after a command that failed and is not ignorable. */
  predicate Ends(plan: seq<Command>, fails: set<nat>, n: nat, ok: bool)
    requires n <= |plan|
  {
    if ok then n == |plan| && Proceeds(plan, fails, n)
    else n > 0 && Proceeds(plan, fails, n - 1) && n - 1 in fails && !plan[n - 1].Optional()
  }

  // ------------------------------------------------------------------------- the agent

  ghost predicate IsTrace(k: Kernel, policy: HostPolicy, plan: seq<Command>, fails: set<nat>, trace: seq<Host>) {
    && |trace| == |plan| + 1
    && forall i: nat | i < |plan| :: trace[i + 1] == Outcome(k, policy, trace[i], plan[i], i in fails)
  }

  /** `part` stands in the plan from `start` to `end`. */
  ghost predicate Stands(plan: seq<Command>, start: nat, end: nat, part: seq<Command>) {
    end == start + |part| <= |plan| && forall i: nat | i < |part| :: plan[start + i] == part[i]
  }

  /** Where each part of the plan ends. */
  ghost function PlanEnds(policy: HostPolicy, drift: Drift): (ends: seq<nat>)
    ensures |ends| == 5 && ends[4] == |Plan(policy, drift)|
    ensures var plan := Plan(policy, drift);
            && Stands(plan, 0, ends[0], TablePlan(drift)) && Stands(plan, ends[0], ends[1], Rule4Plan(drift))
            && Stands(plan, ends[1], ends[2], Routes4Plan(drift))
            && Stands(plan, ends[2], ends[3], Routes6Plan(policy, drift))
            && Stands(plan, ends[3], ends[4], Rule6Plan(policy, drift))
  {
    var a, b, c := TablePlan(drift), Rule4Plan(drift), Routes4Plan(drift);
    var d, e := Routes6Plan(policy, drift), Rule6Plan(policy, drift);
    Parts(a, b, c, d, e);
    [|a|, |a| + |b|, |a| + |b| + |c|, |a| + |b| + |c| + |d|, |a| + |b| + |c| + |d| + |e|]
  }

  lemma Parts(a: seq<Command>, b: seq<Command>, c: seq<Command>, d: seq<Command>, e: seq<Command>)
    ensures var plan := a + b + c + d + e;
            var ab, abc, abcd := |a| + |b|, |a| + |b| + |c|, |a| + |b| + |c| + |d|;
            && Stands(plan, 0, |a|, a) && Stands(plan, |a|, ab, b) && Stands(plan, ab, abc, c)
            && Stands(plan, abc, abcd, d) && Stands(plan, abcd, |plan|, e)
  {
  }

  class Agent {
    var table: Option<set<string>>
    var rules4: seq<RuleEntry>
    var routes4: Routes
    var rules6: seq<RuleEntry>
    var routes6: Routes
    /** How many commands the agent has issued. */
    var count: nat

    function Now(): Host
      reads this
    {
      Host(table, rules4, routes4, rules6, routes6)
    }

    /** The agent is where the trace of its plan has it, having got this far. */
    ghost predicate Follows(plan: seq<Command>, fails: set<nat>, trace: seq<Host>)
      reads this
    {
      count <= |plan| && |trace| == |plan| + 1 && Now() == trace[count] && Proceeds(plan, fails, count)
    }

    /** The agent got to `end`, or gave up on the way there. */
    ghost predicate Reached(plan: seq<Command>, fails: set<nat>, trace: seq<Host>, end: nat, ok: bool)
      reads this
    {
      if ok then count == end && Follows(plan, fails, trace)
      else count <= end <= |plan| && |trace| == |plan| + 1 && Now() == trace[count] && Ends(plan, fails, count, false)
    }

    method Perform(k: Kernel, policy: HostPolicy, c: Command, fails: set<nat>, ghost plan: seq<Command>,
                   ghost trace: seq<Host>)
      returns (ok: bool)
      requires IsTrace(k, policy, plan, fails, trace) && count < |plan| && plan[count] == c && Now() == trace[count]
      modifies this
      ensures count == old(count) + 1 && Now() == trace[count]
      ensures ok <==> old(count) !in fails
    {
      assert trace[count + 1] == Outcome(k, policy, trace[count], plan[count], count in fails);
      ok := count !in fails;
      if ok {
        var after := Apply(k, policy, Now(), c);
        table, rules4, routes4 := after.table, after.rules4, after.routes4;
        rules6, routes6 := after.rules6, after.routes6;
      }
      count := count + 1;
    }

    method RepairTable(k: Kernel, policy: HostPolicy, drift: Drift, fails: set<nat>,
                  ghost plan: seq<Command>, ghost trace: seq<Host>, ghost end: nat)
      returns (ok: bool)
      requires IsTrace(k, policy, plan, fails, trace) && Follows(plan, fails, trace)
      requires Stands(plan, count, end, TablePlan(drift))
      modifies this
      ensures Reached(plan, fails, trace, end, ok)
    {
      ok := true;
      if drift.tableMissing {
        assert plan[count + 0] == TablePlan(drift)[0];
        ok := Perform(k, policy, InstallTable, fails, plan, trace);
      } else if drift.tableStale {
        assert plan[count + 0] == TablePlan(drift)[0];
        ok := Perform(k, policy, ReplaceTable, fails, plan, trace);
      }
    }

    method RepairRule4(k: Kernel, policy: HostPolicy, drift: Drift, fails: set<nat>,
                  ghost plan: seq<Command>, ghost trace: seq<Host>, ghost end: nat)
      returns (ok: bool)
      requires IsTrace(k, policy, plan, fails, trace) && Follows(plan, fails, trace)
      requires Stands(plan, count, end, Rule4Plan(drift))
      modifies this
      ensures Reached(plan, fails, trace, end, ok)
    {
      ok := true;
      if drift.ruleMissing {
        assert plan[count + 0] == Rule4Plan(drift)[0] && plan[count + 1] == Rule4Plan(drift)[1];
        ok := Perform(k, policy, DeleteRule4, fails, plan, trace);
        ok := Perform(k, policy, AddRule4, fails, plan, trace);
      }
    }

    method RepairRoutes4(k: Kernel, policy: HostPolicy, drift: Drift, fails: set<nat>,
                  ghost plan: seq<Command>, ghost trace: seq<Host>, ghost end: nat)
      returns (ok: bool)
      requires IsTrace(k, policy, plan, fails, trace) && Follows(plan, fails, trace)
      requires Stands(plan, count, end, Routes4Plan(drift))
      modifies this
      ensures Reached(plan, fails, trace, end, ok)
    {
      if drift.subnetRouteMissing || drift.defaultRouteMissing {
        for i := 0 to 3
          invariant count == old(count) + i && Follows(plan, fails, trace)
        {
          assert plan[old(count) + i] == Routes4Plan(drift)[i];
          ok := Perform(k, policy, ReplaceRoute4(ROUTES[i]), fails, plan, trace);
          if !ok { return; }
        }
      }
      ok := true;
    }

    method RepairRoutes6(k: Kernel, policy: HostPolicy, drift: Drift, fails: set<nat>,
                  ghost plan: seq<Command>, ghost trace: seq<Host>, ghost end: nat)
      returns (ok: bool)
      requires IsTrace(k, policy, plan, fails, trace) && Follows(plan, fails, trace)
      requires Stands(plan, count, end, Routes6Plan(policy, drift))
      modifies this
      ensures Reached(plan, fails, trace, end, ok)
    {
      if drift.ipv6RoutesMissing && policy.ipv6.Some? {
        for i := 0 to 3
          invariant count == old(count) + i && Follows(plan, fails, trace)
        {
          assert plan[old(count) + i] == Routes6Plan(policy, drift)[i];
          ok := Perform(k, policy, ReplaceRoute6(ROUTES[i]), fails, plan, trace);
          if !ok { return; }
        }
      }
      ok := true;
    }

    method RepairRule6(k: Kernel, policy: HostPolicy, drift: Drift, fails: set<nat>,
                  ghost plan: seq<Command>, ghost trace: seq<Host>, ghost end: nat)
      returns (ok: bool)
      requires IsTrace(k, policy, plan, fails, trace) && Follows(plan, fails, trace)
      requires Stands(plan, count, end, Rule6Plan(policy, drift))
      modifies this
      ensures Reached(plan, fails, trace, end, ok)
    {
      ok := true;
      if drift.ipv6RuleMissing && policy.ipv6.Some? {
        assert plan[count + 0] == Rule6Plan(policy, drift)[0] && plan[count + 1] == Rule6Plan(policy, drift)[1];
        ok := Perform(k, policy, DeleteRule6, fails, plan, trace);
        ok := Perform(k, policy, AddRule6, fails, plan, trace);
      }
    }

    method RepairIpv6(k: Kernel, policy: HostPolicy, drift: Drift, fails: set<nat>,
                      ghost plan: seq<Command>, ghost trace: seq<Host>, ghost middle: nat, ghost end: nat)
      returns (ok: bool)
      requires IsTrace(k, policy, plan, fails, trace) && Follows(plan, fails, trace)
      requires Stands(plan, count, middle, Routes6Plan(policy, drift)) &&
               Stands(plan, middle, end, Rule6Plan(policy, drift))
      modifies this
      ensures Reached(plan, fails, trace, end, ok)
    {
      ok := RepairRoutes6(k, policy, drift, fails, plan, trace, middle);
      if !ok { return; }
      ok := RepairRule6(k, policy, drift, fails, plan, trace, end);
    }

    /** Issues the plan in order, stopping at the first command that fails and is not ignorable. */
    method ApplyHostPolicy(k: Kernel, policy: HostPolicy, drift: Drift, fails: set<nat>,
                           ghost plan: seq<Command>, ghost trace: seq<Host>, ghost ends: seq<nat>)
      returns (ok: bool)
      requires IsTrace(k, policy, plan, fails, trace) && count == 0 && Now() == trace[0]
      requires |ends| == 5 && ends[4] == |plan|
      requires Stands(plan, 0, ends[0], TablePlan(drift)) && Stands(plan, ends[0], ends[1], Rule4Plan(drift))
      requires Stands(plan, ends[1], ends[2], Routes4Plan(drift)) &&
               Stands(plan, ends[2], ends[3], Routes6Plan(policy, drift))
      requires Stands(plan, ends[3], ends[4], Rule6Plan(policy, drift))
      modifies this
      ensures count <= |plan| && Ends(plan, fails, count, ok) && Now() == trace[count]
    {
      ok := RepairTable(k, policy, drift, fails, plan, trace, ends[0]);
      if !ok { return; }
      ok := RepairRule4(k, policy, drift, fails, plan, trace, ends[1]);
      if !ok { return; }
      ok := RepairRoutes4(k, policy, drift, fails, plan, trace, ends[2]);
      if !ok { return; }
      ok := RepairIpv6(k, policy, drift, fails, plan, trace, ends[3], ends[4]);
    }

    /** One reconcile: look, and repair what has drifted. */
    method Reconcile(k: Kernel, policy: HostPolicy, fails: set<nat>) returns (ok: bool)
      modifies this
      ensures var plan := Plan(policy, DetectDrift(k, policy, old(Now())));
              && count <= |plan| && Ends(plan, fails, count, ok)
              && Now() == HostAt(k, policy, old(Now()), plan, fails, count)
    {
      count := 0;
      var drift := DetectDrift(k, policy, Now());
      if drift == CLEAN { return true; }
      ghost var h, plan := Now(), Plan(policy, drift);
      ghost var trace := seq(|plan| + 1, i requires 0 <= i <= |plan| => HostAt(k, policy, h, plan, fails, i));
      ok := ApplyHostPolicy(k, policy, drift, fails, plan, trace, PlanEnds(policy, drift));
    }
  }
}
