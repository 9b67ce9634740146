/** What every repair of the host policy keeps, at each of its commands, and where it ends. */
module HostRepairSafety {
  import opened Basics
  import opened Text
  import opened HostRepair

  /** The subnets are written as the host prints them, and the policy's IPv6 addresses are addresses. */
  ghost predicate Canonical(k: Kernel, policy: HostPolicy) {
    && k.prefix(policy.subnet) == policy.subnet && SplitPrefix(policy.subnet).Some?
    && (policy.ipv6.Some? ==>
          var half := policy.ipv6.value;
          && k.prefix(half.subnet) == half.subnet && SplitPrefix(half.subnet).Some?
          && k.parse6(SplitPrefix(half.subnet).value.0).Some? && k.parse6(half.gateway).Some?)
  }

  // ------------------------------------------------------------------ parts of a repair

  lemma NextHost(k: Kernel, policy: HostPolicy, h: Host, plan: seq<Command>, fails: set<nat>, n: nat)
    requires n < |plan|
    ensures HostAt(k, policy, h, plan, fails, n + 1)
            == Outcome(k, policy, HostAt(k, policy, h, plan, fails, n), plan[n], n in fails)
  {
  }

  lemma NextTwo(k: Kernel, policy: HostPolicy, h: Host, plan: seq<Command>, n: nat)
    requires n + 2 <= |plan|
    ensures HostAt(k, policy, h, plan, {}, n + 2)
            == Apply(k, policy, Apply(k, policy, HostAt(k, policy, h, plan, {}, n), plan[n]), plan[n + 1])
  {
    NextHost(k, policy, h, plan, {}, n);
    NextHost(k, policy, h, plan, {}, n + 1);
  }

  lemma NextThree(k: Kernel, policy: HostPolicy, h: Host, plan: seq<Command>, n: nat)
    requires n + 3 <= |plan|
    ensures HostAt(k, policy, h, plan, {}, n + 3)
            == Apply(k, policy, Apply(k, policy, Apply(k, policy, HostAt(k, policy, h, plan, {}, n), plan[n]),
                                      plan[n + 1]), plan[n + 2])
  {
    NextTwo(k, policy, h, plan, n);
    NextHost(k, policy, h, plan, {}, n + 2);
  }

  lemma FillsRoutes4(k: Kernel, policy: HostPolicy, h: Host)
    ensures Apply(k, policy, Apply(k, policy, Apply(k, policy, h, ReplaceRoute4(UnreachableDefault)),
                                   ReplaceRoute4(ToSubnet)),
                  ReplaceRoute4(ViaGateway)) == h.(routes4 := Filled4(k, policy, h.routes4))
  {
  }

  lemma FillsRoutes6(k: Kernel, policy: HostPolicy, h: Host)
    requires policy.ipv6.Some?
    ensures Apply(k, policy, Apply(k, policy, Apply(k, policy, h, ReplaceRoute6(UnreachableDefault)),
                                   ReplaceRoute6(ToSubnet)),
                  ReplaceRoute6(ViaGateway)) == h.(routes6 := Filled6(k, policy, policy.ipv6.value, h.routes6))
  {
  }

  function Filled4(k: Kernel, policy: HostPolicy, routes: Routes): Routes {
    Route4(k, policy, Route4(k, policy, Route4(k, policy, routes, UnreachableDefault), ToSubnet), ViaGateway)
  }

  function Filled6(k: Kernel, policy: HostPolicy, half: Ipv6Half, routes: Routes): Routes {
    Route6(k, policy, half, Route6(k, policy, half, Route6(k, policy, half, routes, UnreachableDefault), ToSubnet),
           ViaGateway)
  }

  /** A subnet, having a slash, is no default route. */
  lemma SubnetIsNotDefault(subnet: string)
    requires SplitPrefix(subnet).Some?
    ensures subnet != "default"
  {
    SplitOnceRebuilds(subnet, '/');
    SplitOnceRebuilds("default", '/');
    assert '/' !in "default";
  }

  lemma Filled4Suffices(k: Kernel, policy: HostPolicy, routes: Routes)
    requires Canonical(k, policy)
    ensures var after := Filled4(k, policy, routes);
            SubnetRoute(after, policy.subnet, policy.bridge) && DefaultRoute(after, policy) && Unreachable(after)
  {
    var after := Filled4(k, policy, routes);
    SubnetIsNotDefault(policy.subnet);
    assert ("default", UNREACHABLE_METRIC) in after && after[("default", UNREACHABLE_METRIC)].unreachable;
    assert (policy.subnet, METRIC4) in after && after[(policy.subnet, METRIC4)].dev == Some(policy.bridge);
    assert ("default", METRIC4) in after && after[("default", METRIC4)].gateway == Some(policy.gateway);
  }

  lemma Filled6Suffices(k: Kernel, policy: HostPolicy, half: Ipv6Half, routes: Routes)
    requires Sound(k) && Canonical(k, policy) && policy.ipv6 == Some(half)
    ensures Ipv6RoutesPresent(k, Filled6(k, policy, half, routes), policy, half)
  {
    var after := Filled6(k, policy, half, routes);
    SubnetIsNotDefault(half.subnet);
    assert ("default", UNREACHABLE_METRIC) in after && after[("default", UNREACHABLE_METRIC)].unreachable;
    assert (half.subnet, METRIC6) in after && after[(half.subnet, METRIC6)].dev == Some(policy.bridge);
    assert ("default", METRIC6) in after && after[("default", METRIC6)].gateway == Some(Printed6(k, half.gateway));
    assert SameIpv6(k, Printed6(k, half.gateway), half.gateway);
  }

  // ------------------------------------------------------------------------ convergence

  /** The repaired host, each part having replaced what it is responsible for. */
  function Repaired(k: Kernel, policy: HostPolicy, h: Host, drift: Drift): Host {
    var rule4 := RuleFor(k, policy, policy.subnet);
    Host(
      if drift.tableMissing || drift.tableStale then Some({Marker(policy)}) else h.table,
      if drift.ruleMissing then WithRule(WithoutRule(h.rules4, rule4), rule4) else h.rules4,
      if drift.subnetRouteMissing || drift.defaultRouteMissing then Filled4(k, policy, h.routes4) else h.routes4,
      if drift.ipv6RuleMissing && policy.ipv6.Some?
      then var rule6 := RuleFor(k, policy, policy.ipv6.value.subnet); WithRule(WithoutRule(h.rules6, rule6), rule6)
      else h.rules6,
      if drift.ipv6RoutesMissing && policy.ipv6.Some? then Filled6(k, policy, policy.ipv6.value, h.routes6)
      else h.routes6)
  }

  lemma TableDone(k: Kernel, policy: HostPolicy, h: Host, plan: seq<Command>, drift: Drift, end: nat)
    requires drift.tableMissing ==> h.table.None?
    requires Stands(plan, 0, end, TablePlan(drift))
    ensures HostAt(k, policy, h, plan, {}, end)
            == h.(table := if drift.tableMissing || drift.tableStale then Some({Marker(policy)}) else h.table)
  {
    if drift.tableMissing || drift.tableStale {
      assert plan[0 + 0] == TablePlan(drift)[0];
      NextHost(k, policy, h, plan, {}, 0);
      var none: set<string> := {};
      assert none + {Marker(policy)} == {Marker(policy)};
    }
  }

  lemma Rule4Done(k: Kernel, policy: HostPolicy, h: Host, plan: seq<Command>, drift: Drift, start: nat, end: nat)
    requires Stands(plan, start, end, Rule4Plan(drift))
    ensures var before, rule := HostAt(k, policy, h, plan, {}, start), RuleFor(k, policy, policy.subnet);
            HostAt(k, policy, h, plan, {}, end)
            == before.(rules4 := if drift.ruleMissing then WithRule(WithoutRule(before.rules4, rule), rule)
                       else before.rules4)
  {
    if drift.ruleMissing {
      assert plan[start + 0] == Rule4Plan(drift)[0] && plan[start + 1] == Rule4Plan(drift)[1];
      NextTwo(k, policy, h, plan, start);
    }
  }

  lemma Routes4Done(k: Kernel, policy: HostPolicy, h: Host, plan: seq<Command>, drift: Drift, start: nat, end: nat)
    requires Stands(plan, start, end, Routes4Plan(drift))
    ensures var before := HostAt(k, policy, h, plan, {}, start);
            HostAt(k, policy, h, plan, {}, end)
            == before.(routes4 := if drift.subnetRouteMissing || drift.defaultRouteMissing
                                  then Filled4(k, policy, before.routes4) else before.routes4)
  {
    if drift.subnetRouteMissing || drift.defaultRouteMissing {
      var part := Routes4Plan(drift);
      assert plan[start + 0] == part[0] && plan[start + 1] == part[1] && plan[start + 2] == part[2];
      NextThree(k, policy, h, plan, start);
      FillsRoutes4(k, policy, HostAt(k, policy, h, plan, {}, start));
    }
  }

  lemma Routes6Done(k: Kernel, policy: HostPolicy, h: Host, plan: seq<Command>, drift: Drift, start: nat, end: nat)
    requires Stands(plan, start, end, Routes6Plan(policy, drift))
    ensures var before := HostAt(k, policy, h, plan, {}, start);
            HostAt(k, policy, h, plan, {}, end)
            == before.(routes6 := if drift.ipv6RoutesMissing && policy.ipv6.Some?
                                  then Filled6(k, policy, policy.ipv6.value, before.routes6) else before.routes6)
  {
    if drift.ipv6RoutesMissing && policy.ipv6.Some? {
      var part := Routes6Plan(policy, drift);
      assert plan[start + 0] == part[0] && plan[start + 1] == part[1] && plan[start + 2] == part[2];
      NextThree(k, policy, h, plan, start);
      FillsRoutes6(k, policy, HostAt(k, policy, h, plan, {}, start));
    }
  }

  lemma Rule6Done(k: Kernel, policy: HostPolicy, h: Host, plan: seq<Command>, drift: Drift, start: nat, end: nat)
    requires Stands(plan, start, end, Rule6Plan(policy, drift))
    ensures var before := HostAt(k, policy, h, plan, {}, start);
            HostAt(k, policy, h, plan, {}, end)
            == before.(rules6 := if drift.ipv6RuleMissing && policy.ipv6.Some?
                                 then var rule := RuleFor(k, policy, policy.ipv6.value.subnet);
                                      WithRule(WithoutRule(before.rules6, rule), rule)
                                 else before.rules6)
  {
    if drift.ipv6RuleMissing && policy.ipv6.Some? {
      assert plan[start + 0] == Rule6Plan(policy, drift)[0] && plan[start + 1] == Rule6Plan(policy, drift)[1];
      NextTwo(k, policy, h, plan, start);
    }
  }

  lemma RepairReaches(k: Kernel, policy: HostPolicy, h: Host)
    ensures var drift := DetectDrift(k, policy, h);
            HostAt(k, policy, h, Plan(policy, drift), {}, |Plan(policy, drift)|) == Repaired(k, policy, h, drift)
  {
    var drift := DetectDrift(k, policy, h);
    var plan, ends := Plan(policy, drift), PlanEnds(policy, drift);
    TableDone(k, policy, h, plan, drift, ends[0]);
    Rule4Done(k, policy, h, plan, drift, ends[0], ends[1]);
    Routes4Done(k, policy, h, plan, drift, ends[1], ends[2]);
    Routes6Done(k, policy, h, plan, drift, ends[2], ends[3]);
    Rule6Done(k, policy, h, plan, drift, ends[3], ends[4]);
  }

  lemma RepairedRules(k: Kernel, policy: HostPolicy, h: Host)
    requires Canonical(k, policy)
    ensures var after := Repaired(k, policy, h, DetectDrift(k, policy, h));
            && RulePresent(after.rules4, policy)
            && (policy.ipv6.Some? ==> Ipv6RulePresent(k, after.rules6, policy, policy.ipv6.value))
  {
    var drift := DetectDrift(k, policy, h);
    var after := Repaired(k, policy, h, drift);
    if drift.ruleMissing { assert after.rules4[|after.rules4| - 1] == RuleFor(k, policy, policy.subnet).value; }
    if drift.ipv6RuleMissing {
      var rule := RuleFor(k, policy, policy.ipv6.value.subnet).value;
      assert after.rules6[|after.rules6| - 1] == rule;
      assert rule in after.rules6;
    }
  }

  lemma RepairedRoutes(k: Kernel, policy: HostPolicy, h: Host)
    requires Sound(k) && Canonical(k, policy)
    ensures var after := Repaired(k, policy, h, DetectDrift(k, policy, h));
            && SubnetRoute(after.routes4, policy.subnet, policy.bridge)
            && DefaultRoute(after.routes4, policy) && Unreachable(after.routes4)
            && (policy.ipv6.Some? ==> Ipv6RoutesPresent(k, after.routes6, policy, policy.ipv6.value))
  {
    Filled4Suffices(k, policy, h.routes4);
    if policy.ipv6.Some? { Filled6Suffices(k, policy, policy.ipv6.value, h.routes6); }
  }

  /** The family's table has the subnet on the bridge, a default through the gateway, and an unreachable one. */
  ghost predicate Routed(routes: Routes, subnet: string, bridge: string, isGateway: string -> bool) {
    && (exists e <- routes.Values :: e.dst == subnet && e.dev == Some(bridge))
    && (exists e <- routes.Values ::
          e.dst == "default" && e.dev == Some(bridge) && e.gateway.Some? && isGateway(e.gateway.value))
    && (exists e <- routes.Values :: e.dst == "default" && e.unreachable)
  }

  /** Traffic from the subnet is sent to the policy's table at its priority. */
  ghost predicate Selected(rules: seq<RuleEntry>, policy: HostPolicy, subnet: string, isNetwork: string -> bool) {
    && SplitPrefix(subnet).Some?
    && exists r <- rules ::
         && r.priority == policy.priority && r.table == policy.routeTable
         && isNetwork(r.src) && r.srclen == SplitPrefix(subnet).value.1
  }

  /** What the host policy asks of the host, in the host's own terms. */
  ghost predicate Enforced(k: Kernel, policy: HostPolicy, h: Host) {
    && h.table.Some? && Marker(policy) in h.table.value
    && Selected(h.rules4, policy, policy.subnet,
                src => SplitPrefix(policy.subnet).Some? && src == SplitPrefix(policy.subnet).value.0)
    && Routed(h.routes4, policy.subnet, policy.bridge, gateway => gateway == policy.gateway)
    && (policy.ipv6.Some? ==>
          var half := policy.ipv6.value;
          && Selected(h.rules6, policy, half.subnet,
                      src => SplitPrefix(half.subnet).Some? && k.parse6(src).Some?
                             && k.parse6(src) == k.parse6(SplitPrefix(half.subnet).value.0))
          && Routed(h.routes6, half.subnet, policy.bridge,
                    gateway => k.parse6(gateway).Some? && k.parse6(gateway) == k.parse6(half.gateway)))
  }

  lemma RoutedIff4(routes: Routes, policy: HostPolicy)
    ensures Routed(routes, policy.subnet, policy.bridge, gateway => gateway == policy.gateway) <==>
            SubnetRoute(routes, policy.subnet, policy.bridge) && DefaultRoute(routes, policy) && Unreachable(routes)
  {
    forall key <- routes ensures routes[key] in routes.Values {}
  }

  lemma RoutedIff6(k: Kernel, routes: Routes, policy: HostPolicy, half: Ipv6Half)
    ensures Routed(routes, half.subnet, policy.bridge,
                   gateway => k.parse6(gateway).Some? && k.parse6(gateway) == k.parse6(half.gateway)) <==>
            Ipv6RoutesPresent(k, routes, policy, half)
  {
    forall key <- routes ensures routes[key] in routes.Values {}
  }

  lemma SelectedIff4(rules: seq<RuleEntry>, policy: HostPolicy)
    ensures Selected(rules, policy, policy.subnet,
                     src => SplitPrefix(policy.subnet).Some? && src == SplitPrefix(policy.subnet).value.0) <==>
            RulePresent(rules, policy)
  {
  }

  /** The agent sees no drift exactly if the host is as the policy asks. */
  lemma CleanIffEnforced(k: Kernel, policy: HostPolicy, h: Host)
    ensures DetectDrift(k, policy, h) == CLEAN <==> Enforced(k, policy, h)
  {
    RoutedIff4(h.routes4, policy);
    SelectedIff4(h.rules4, policy);
    if policy.ipv6.Some? { RoutedIff6(k, h.routes6, policy, policy.ipv6.value); }
  }

  /** Two policies mark their tables alike exactly if they guard the same IPv6 subnet, or none. */
  lemma MarkersAgreeIff(a: HostPolicy, b: HostPolicy)
    requires a.ipv6.Some? ==> SplitPrefix(a.ipv6.value.subnet).Some?
    requires b.ipv6.Some? ==> SplitPrefix(b.ipv6.value.subnet).Some?
    ensures Marker(a) == Marker(b) <==>
            (a.ipv6.Some? <==> b.ipv6.Some?) && (a.ipv6.Some? ==> a.ipv6.value.subnet == b.ipv6.value.subnet)
  {
    var x := if a.ipv6.None? then "disabled" else a.ipv6.value.subnet;
    var y := if b.ipv6.None? then "disabled" else b.ipv6.value.subnet;
    SamePrefix("egressy-ipv6-kill-switch:", x, y);
    if a.ipv6.Some? { PrefixIsNotDisabled(x); }
    if b.ipv6.Some? { PrefixIsNotDisabled(y); }
  }

  lemma SamePrefix(prefix: string, x: string, y: string)
    ensures prefix + x == prefix + y <==> x == y
  {
    assert (prefix + x)[|prefix|..] == x && (prefix + y)[|prefix|..] == y;
  }

  lemma PrefixIsNotDisabled(subnet: string)
    requires SplitPrefix(subnet).Some?
    ensures subnet != "disabled"
  {
    SplitOnceRebuilds(subnet, '/');
    assert '/' !in "disabled";
  }

  /**
   From any host state, one reconcile none of whose commands fails leaves the host as the policy asks,
   and the next one issues no command.
   */
  lemma ReconcileConverges(k: Kernel, policy: HostPolicy, h: Host)
    requires Sound(k) && Canonical(k, policy)
    ensures var plan := Plan(policy, DetectDrift(k, policy, h));
            var after := HostAt(k, policy, h, plan, {}, |plan|);
            && Enforced(k, policy, after)
            && DetectDrift(k, policy, after) == CLEAN && Plan(policy, DetectDrift(k, policy, after)) == []
  {
    var plan := Plan(policy, DetectDrift(k, policy, h));
    CleanIffEnforced(k, policy, HostAt(k, policy, h, plan, {}, |plan|));
    RepairReaches(k, policy, h);
    RepairedRules(k, policy, h);
    RepairedRoutes(k, policy, h);
  }

  lemma InParts(x: Command, a: seq<Command>, b: seq<Command>, c: seq<Command>, d: seq<Command>, e: seq<Command>)
    ensures x in a + b + c + d + e <==> x in a || x in b || x in c || x in d || x in e
  {
  }

  lemma TableCommands(x: Command, policy: HostPolicy, drift: Drift)
    requires x == InstallTable || x == ReplaceTable
    ensures x in Plan(policy, drift) <==> x in TablePlan(drift)
  {
    InParts(x, TablePlan(drift), Rule4Plan(drift), Routes4Plan(drift), Routes6Plan(policy, drift),
            Rule6Plan(policy, drift));
  }

  /** A missing table is installed and a stale one replaced, and neither is done otherwise. */
  lemma TableCommandIff(k: Kernel, policy: HostPolicy, h: Host)
    ensures var plan := Plan(policy, DetectDrift(k, policy, h));
            && (InstallTable in plan <==> h.table.None?)
            && (ReplaceTable in plan <==> h.table.Some? && Marker(policy) !in h.table.value)
  {
    TableCommands(InstallTable, policy, DetectDrift(k, policy, h));
    TableCommands(ReplaceTable, policy, DetectDrift(k, policy, h));
  }

  // ------------------------------------------------------------------- failing repairs

  lemma StandsAt(plan: seq<Command>, start: nat, end: nat, part: seq<Command>, n: nat)
    requires Stands(plan, start, end, part) && start <= n < end
    ensures plan[n] in part
  {
    assert plan[start + (n - start)] == part[n - start];
  }

  /** The plan's commands in order: the table's first, then IPv4 rule, IPv4 routes, IPv6 routes, IPv6 rule. */
  lemma PlanOrder(policy: HostPolicy, drift: Drift, n: nat)
    requires n < |Plan(policy, drift)|
    ensures var c, ends := Plan(policy, drift)[n], PlanEnds(policy, drift);
            && (c.Routing() <==> ends[0] <= n)
            && (c.DeleteRule4? || c.AddRule4? <==> ends[0] <= n < ends[1])
            && (c.ReplaceRoute4? <==> ends[1] <= n < ends[2])
            && (c.ReplaceRoute6? <==> ends[2] <= n < ends[3])
            && (c.DeleteRule6? || c.AddRule6? <==> ends[3] <= n)
  {
    CommandAt(policy, drift, Plan(policy, drift), PlanEnds(policy, drift), n);
  }

  lemma CommandAt(policy: HostPolicy, drift: Drift, plan: seq<Command>, ends: seq<nat>, n: nat)
    requires |ends| == 5 && ends[4] == |plan| && n < |plan|
    requires Stands(plan, 0, ends[0], TablePlan(drift)) && Stands(plan, ends[0], ends[1], Rule4Plan(drift))
    requires Stands(plan, ends[1], ends[2], Routes4Plan(drift)) &&
             Stands(plan, ends[2], ends[3], Routes6Plan(policy, drift))
    requires Stands(plan, ends[3], ends[4], Rule6Plan(policy, drift))
    ensures var c := plan[n];
            && (c.Routing() <==> ends[0] <= n)
            && (c.DeleteRule4? || c.AddRule4? <==> ends[0] <= n < ends[1])
            && (c.ReplaceRoute4? <==> ends[1] <= n < ends[2])
            && (c.ReplaceRoute6? <==> ends[2] <= n < ends[3])
            && (c.DeleteRule6? || c.AddRule6? <==> ends[3] <= n)
  {
    if n < ends[0] { StandsAt(plan, 0, ends[0], TablePlan(drift), n); }
    else if n < ends[1] { StandsAt(plan, ends[0], ends[1], Rule4Plan(drift), n); }
    else if n < ends[2] { StandsAt(plan, ends[1], ends[2], Routes4Plan(drift), n); }
    else if n < ends[3] { StandsAt(plan, ends[2], ends[3], Routes6Plan(policy, drift), n); }
    else { StandsAt(plan, ends[3], ends[4], Rule6Plan(policy, drift), n); }
  }

  predicate KillSwitchCurrent(policy: HostPolicy, h: Host) { h.table.Some? && Marker(policy) in h.table.value }

  lemma {:induction false} KillSwitchStays(k: Kernel, policy: HostPolicy, h: Host, plan: seq<Command>, fails: set<nat>,
                                           from: nat, n: nat)
    requires from <= n <= |plan| && KillSwitchCurrent(policy, HostAt(k, policy, h, plan, fails, from))
    ensures KillSwitchCurrent(policy, HostAt(k, policy, h, plan, fails, n))
    decreases n
  {
    if from < n {
      KillSwitchStays(k, policy, h, plan, fails, from, n - 1);
      NextHost(k, policy, h, plan, fails, n - 1);
    }
  }

  /** Whatever fails, a routing command is only ever issued with the current kill switch installed. */
  lemma KillSwitchFirst(k: Kernel, policy: HostPolicy, h: Host, fails: set<nat>, n: nat)
    requires var plan := Plan(policy, DetectDrift(k, policy, h));
             n < |plan| && Proceeds(plan, fails, n) && plan[n].Routing()
    ensures KillSwitchCurrent(policy, HostAt(k, policy, h, Plan(policy, DetectDrift(k, policy, h)), fails, n))
  {
    var drift := DetectDrift(k, policy, h);
    var plan := Plan(policy, drift);
    PlanOrder(policy, drift, n);
    if drift.tableMissing || drift.tableStale {
      assert plan[0 + 0] == TablePlan(drift)[0];
      assert 0 !in fails;
      NextHost(k, policy, h, plan, fails, 0);
      KillSwitchStays(k, policy, h, plan, fails, 1, n);
    } else {
      KillSwitchStays(k, policy, h, plan, fails, 0, n);
    }
  }

  predicate HasLastResort(routes: Routes) {
    ("default", UNREACHABLE_METRIC) in routes &&
      routes[("default", UNREACHABLE_METRIC)] == RouteEntry("default", None, None, true)
  }

  lemma {:induction false} LastResortStays(k: Kernel, policy: HostPolicy, h: Host, plan: seq<Command>, fails: set<nat>,
                                           from: nat, n: nat)
    requires from <= n <= |plan| && HasLastResort(HostAt(k, policy, h, plan, fails, from).routes6)
    ensures HasLastResort(HostAt(k, policy, h, plan, fails, n).routes6)
    decreases n
  {
    if from < n {
      LastResortStays(k, policy, h, plan, fails, from, n - 1);
      NextHost(k, policy, h, plan, fails, n - 1);
    }
  }

  lemma LastResortInstalled(k: Kernel, policy: HostPolicy, h: Host, plan: seq<Command>, fails: set<nat>, first: nat,
                            n: nat)
    requires policy.ipv6.Some? && first < n <= |plan| && plan[first] == ReplaceRoute6(UnreachableDefault)
    requires Proceeds(plan, fails, n)
    ensures Unreachable(HostAt(k, policy, h, plan, fails, n).routes6)
  {
    assert first !in fails;
    NextHost(k, policy, h, plan, fails, first);
    LastResortStays(k, policy, h, plan, fails, first + 1, n);
  }

  lemma {:induction false} Routes6Untouched(k: Kernel, policy: HostPolicy, h: Host, plan: seq<Command>, fails: set<nat>,
                                            n: nat)
    requires n <= |plan| && forall i | 0 <= i < n :: !plan[i].ReplaceRoute6?
    ensures HostAt(k, policy, h, plan, fails, n).routes6 == h.routes6
  {
    if n > 0 { Routes6Untouched(k, policy, h, plan, fails, n - 1); }
  }

  lemma {:induction false} Routes4Untouched(k: Kernel, policy: HostPolicy, h: Host, plan: seq<Command>, fails: set<nat>,
                                            n: nat)
    requires n <= |plan| && forall i | 0 <= i < n :: !plan[i].ReplaceRoute4?
    ensures HostAt(k, policy, h, plan, fails, n).routes4 == h.routes4
  {
    if n > 0 { Routes4Untouched(k, policy, h, plan, fails, n - 1); }
  }

  /** Whatever fails, a new IPv6 rule always finds an unreachable default in the table it selects. */
  lemma NewIpv6RuleFindsLastResort(k: Kernel, policy: HostPolicy, h: Host, fails: set<nat>, n: nat)
    requires var plan := Plan(policy, DetectDrift(k, policy, h));
             n < |plan| && Proceeds(plan, fails, n) && plan[n].AddRule6?
    ensures Unreachable(HostAt(k, policy, h, Plan(policy, DetectDrift(k, policy, h)), fails, n).routes6)
  {
    var drift := DetectDrift(k, policy, h);
    var plan, ends := Plan(policy, drift), PlanEnds(policy, drift);
    PlanOrder(policy, drift, n);
    assert policy.ipv6.Some?;
    if drift.ipv6RoutesMissing {
      assert plan[ends[2] + 0] == Routes6Plan(policy, drift)[0];
      LastResortInstalled(k, policy, h, plan, fails, ends[2], n);
    } else {
      forall i | 0 <= i < n ensures !plan[i].ReplaceRoute6? { PlanOrder(policy, drift, i); }
      Routes6Untouched(k, policy, h, plan, fails, n);
    }
  }

  /**
   The IPv4 rule is added before the IPv4 routes, so a new one finds an unreachable default exactly
   when the host had one before the repair.
   */
  lemma NewIpv4RuleFindsLastResortIff(k: Kernel, policy: HostPolicy, h: Host, fails: set<nat>, n: nat)
    requires var plan := Plan(policy, DetectDrift(k, policy, h)); n < |plan| && plan[n].AddRule4?
    ensures Unreachable(HostAt(k, policy, h, Plan(policy, DetectDrift(k, policy, h)), fails, n).routes4)
            <==> Unreachable(h.routes4)
  {
    var drift := DetectDrift(k, policy, h);
    var plan := Plan(policy, drift);
    PlanOrder(policy, drift, n);
    forall i | 0 <= i < n ensures !plan[i].ReplaceRoute4? { PlanOrder(policy, drift, i); }
    Routes4Untouched(k, policy, h, plan, fails, n);
  }

  /** On a host where nothing is installed, the IPv4 rule goes in over an empty table. */
  lemma NewIpv4RuleCanFindNothing(k: Kernel, policy: HostPolicy) returns (h: Host, n: nat)
    ensures var plan := Plan(policy, DetectDrift(k, policy, h));
            && n < |plan| && Proceeds(plan, {}, n) && plan[n] == AddRule4
            && !Unreachable(HostAt(k, policy, h, plan, {}, n).routes4)
  {
    h := Host(None, [], map[], [], map[]);
    var drift := DetectDrift(k, policy, h);
    var ends := PlanEnds(policy, drift);
    n := ends[0] + 1;
    assert Plan(policy, drift)[ends[0] + 1] == Rule4Plan(drift)[1];
    NewIpv4RuleFindsLastResortIff(k, policy, h, {}, n);
  }

  // -------------------------------------------------------------- subnets not canonical

  predicate NoRouteTo(routes: Routes, dst: string) { forall key <- routes :: routes[key].dst != dst }

  lemma RouteStaysMissing(k: Kernel, policy: HostPolicy, h: Host, c: Command)
    requires k.prefix(policy.subnet) != policy.subnet && policy.subnet != "default"
    requires NoRouteTo(h.routes4, policy.subnet)
    ensures NoRouteTo(Apply(k, policy, h, c).routes4, policy.subnet)
  {
    if c.ReplaceRoute4? { assert forall r: RouteEntry, m: nat :: (r.dst, m) in WithRoute(h.routes4, r, m); }
  }

  lemma {:induction false} UncanonicalStaysMissing(k: Kernel, policy: HostPolicy, h: Host, plan: seq<Command>,
                                                   fails: set<nat>, n: nat)
    requires k.prefix(policy.subnet) != policy.subnet && policy.subnet != "default"
    requires NoRouteTo(h.routes4, policy.subnet) && n <= |plan|
    ensures NoRouteTo(HostAt(k, policy, h, plan, fails, n).routes4, policy.subnet)
  {
    if n > 0 {
      UncanonicalStaysMissing(k, policy, h, plan, fails, n - 1);
      NextHost(k, policy, h, plan, fails, n - 1);
      RouteStaysMissing(k, policy, HostAt(k, policy, h, plan, fails, n - 1), plan[n - 1]);
    }
  }

  /**
   A subnet the host prints otherwise is never found again: whatever succeeds, its route stays
   missing and so does every later reconcile's.
   */
  lemma UncanonicalNeverSettles(k: Kernel, policy: HostPolicy, h: Host, plan: seq<Command>, fails: set<nat>, n: nat)
    requires k.prefix(policy.subnet) != policy.subnet && policy.subnet != "default"
    requires NoRouteTo(h.routes4, policy.subnet) && n <= |plan|
    ensures var after := HostAt(k, policy, h, plan, fails, n);
            NoRouteTo(after.routes4, policy.subnet) && DetectDrift(k, policy, after).subnetRouteMissing
  {
    UncanonicalStaysMissing(k, policy, h, plan, fails, n);
  }
}
