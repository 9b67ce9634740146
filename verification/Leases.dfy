/**
 Port-forward lease selection of src/docker.rs: colliding target ports and usage IDs lose, then
 the lease limit applies. Discovery runs it over the Docker clients alone and again over their
 union with the pods.
 */
module Leases {
  import opened Basics
  import opened CounterNames
  import opened Enforcement

  type Clients = map<ClientId, Client>

  predicate IsPod(id: ClientId) { POD_PREFIX <= id }

  predicate Forwarding(c: Client) { c.portForwardTarget && c.compliant }

  // ------------------------------------------------------------------------- ordering

  /** Lexicographic order of strings by character. */
  predicate Less(a: string, b: string) {
    b != "" && (a == "" || a[0] < b[0] || (a[0] == b[0] && Less(a[1..], b[1..])))
  }

  lemma LessIrreflexive(a: string)
    ensures !Less(a, a)
  {
  }

  lemma LessTransitive(a: string, b: string, c: string)
    requires Less(a, b) && Less(b, c)
    ensures Less(a, c)
  {
  }

  lemma LessTotal(a: string, b: string)
    ensures a == b || Less(a, b) || Less(b, a)
  {
    if a != "" && b != "" && a[0] == b[0] {
      LessTotal(a[1..], b[1..]);
      assert a == [a[0]] + a[1..] && b == [b[0]] + b[1..];
    }
  }

  /** Docker clients first, then lower usage IDs, then lower container IDs. */
  predicate Before(m: Clients, a: ClientId, b: ClientId)
    requires a in m && b in m
  {
    || (!IsPod(a) && IsPod(b))
    || (IsPod(a) == IsPod(b)
        && (Less(m[a].usageId, m[b].usageId) || (m[a].usageId == m[b].usageId && Less(a, b))))
  }

  lemma BeforeTransitive(m: Clients, a: ClientId, b: ClientId, c: ClientId)
    requires a in m && b in m && c in m && Before(m, a, b) && Before(m, b, c)
    ensures Before(m, a, c)
  {
    if Less(m[a].usageId, m[b].usageId) && Less(m[b].usageId, m[c].usageId) {
      LessTransitive(m[a].usageId, m[b].usageId, m[c].usageId);
    }
    if Less(a, b) && Less(b, c) { LessTransitive(a, b, c); }
  }

  lemma BeforeStrictTotal(m: Clients, a: ClientId, b: ClientId)
    requires a in m && b in m
    ensures !Before(m, a, a)
    ensures a != b ==> Before(m, a, b) || Before(m, b, a)
  {
    LessIrreflexive(a);
    LessIrreflexive(m[a].usageId);
    LessTotal(m[a].usageId, m[b].usageId);
    LessTotal(a, b);
  }

  // -------------------------------------------------------------------- specification

  /** Forwarding clients asking for the same target port as `id`. */
  function PortGroup(m: Clients, port: nat): set<ClientId> {
    set id | id in m && Forwarding(m[id]) && m[id].targetPort == Some(port)
  }

  function UsageGroup(m: Clients, usage: UsageId): set<ClientId> {
    set id | id in m && Forwarding(m[id]) && m[id].usageId == usage
  }

  /** Only pods lose a collision that involves a Docker client; otherwise everyone does. */
  predicate LosesIn(group: set<ClientId>, id: ClientId) {
    && id in group && |group| > 1
    && ((forall other <- group :: IsPod(other)) || (forall other <- group :: !IsPod(other)) || IsPod(id))
  }

  predicate LosesPort(m: Clients, id: ClientId)
    requires id in m
  {
    m[id].targetPort.Some? && LosesIn(PortGroup(m, m[id].targetPort.value), id)
  }

  predicate LosesUsage(m: Clients, id: ClientId)
    requires id in m
  {
    LosesIn(UsageGroup(m, m[id].usageId), id)
  }

  function Demoted(c: Client, why: ComplianceMessage): Client {
    c.(compliant := false, message := why)
  }

  /** The clients once collisions have been settled. */
  function Settled(m: Clients): Clients {
    map id | id in m ::
      if LosesUsage(m, id) then Demoted(m[id], UsageCollides(m[id].usageId))
      else if LosesPort(m, id) then Demoted(m[id], PortCollides(m[id].targetPort.value))
      else m[id]
  }

  function EligibleIds(m: Clients): set<ClientId> {
    set id | id in m && Forwarding(m[id])
  }

  function Ahead(m: Clients, id: ClientId): set<ClientId>
    requires id in m
  {
    set other | other in m && Forwarding(m[other]) && Before(m, other, id)
  }

  /** The clients once the lease limit has been applied. */
  function Limited(m: Clients, maxLeases: nat): Clients {
    map id | id in m ::
      if Forwarding(m[id]) && |Ahead(m, id)| >= maxLeases then Demoted(m[id], LeaseLimitReached(maxLeases)) else m[id]
  }

  function Constrained(m: Clients, maxLeases: nat): Clients {
    Limited(Settled(m), maxLeases)
  }

  // ------------------------------------------------------------------ imperative form

  /** `ports` indexes exactly the forwarding clients among `done` by target port. */
  ghost predicate PortIndex(m: Clients, done: set<ClientId>, ports: map<nat, set<ClientId>>) {
    && (forall p <- ports :: ports[p] == PortGroup(m, p) * done)
    && (forall p: nat, id | id in PortGroup(m, p) && id in done :: p in ports)
  }

  ghost predicate UsageIndex(m: Clients, done: set<ClientId>, usages: map<UsageId, set<ClientId>>) {
    && (forall u <- usages :: usages[u] == UsageGroup(m, u) * done)
    && (forall u: UsageId, id | id in UsageGroup(m, u) && id in done :: u in usages)
  }

  function Indexed<K>(index: map<K, set<ClientId>>, key: K, id: ClientId): map<K, set<ClientId>> {
    index[key := (if key in index then index[key] else {}) + {id}]
  }

  lemma PortIndexNext(m: Clients, done: set<ClientId>, ports: map<nat, set<ClientId>>, id: ClientId)
    requires PortIndex(m, done, ports) && id in m
    ensures PortIndex(m, done + {id},
                      if Forwarding(m[id]) && m[id].targetPort.Some? then Indexed(ports, m[id].targetPort.value, id)
                      else ports)
  {
    forall p: nat ensures PortGroup(m, p) * (done + {id}) ==
                          if id in PortGroup(m, p) then PortGroup(m, p) * done + {id} else PortGroup(m, p) * done
    {
    }
    if Forwarding(m[id]) && m[id].targetPort.Some? {
      var port := m[id].targetPort.value;
      assert port !in ports ==> PortGroup(m, port) * done == {};
    }
  }

  lemma UsageIndexNext(m: Clients, done: set<ClientId>, usages: map<UsageId, set<ClientId>>, id: ClientId)
    requires UsageIndex(m, done, usages) && id in m
    ensures UsageIndex(m, done + {id}, if Forwarding(m[id]) then Indexed(usages, m[id].usageId, id) else usages)
  {
    forall u: UsageId ensures UsageGroup(m, u) * (done + {id}) ==
                              if id in UsageGroup(m, u) then UsageGroup(m, u) * done + {id} else UsageGroup(m, u) * done
    {
    }
    if Forwarding(m[id]) {
      var usage := m[id].usageId;
      assert usage !in usages ==> UsageGroup(m, usage) * done == {};
    }
  }

  method Groups(clients: Clients)
    returns (ports: map<nat, set<ClientId>>, usages: map<UsageId, set<ClientId>>)
    ensures PortIndex(clients, clients.Keys, ports) && UsageIndex(clients, clients.Keys, usages)
  {
    ports, usages := map[], map[];
    var pending, done := clients.Keys, {};
    while pending != {}
      invariant done + pending == clients.Keys
      invariant PortIndex(clients, done, ports) && UsageIndex(clients, done, usages)
      decreases |pending|
    {
      var id :| id in pending;
      PortIndexNext(clients, done, ports, id);
      UsageIndexNext(clients, done, usages, id);
      var c := clients[id];
      if c.portForwardTarget && c.compliant {
        match c.targetPort {
          case None =>
          case Some(port) => ports := Indexed(ports, port, id);
        }
        usages := Indexed(usages, c.usageId, id);
      }
      done := done + {id};
      pending := pending - {id};
    }
  }

  method LosingCollision(group: set<ClientId>) returns (losers: set<ClientId>)
    requires |group| > 1
    ensures losers == Losers(group)
  {
    if (forall id <- group :: IsPod(id)) || !(exists id <- group :: IsPod(id)) {
      return group;
    }
    return set id | id in group && IsPod(id);
  }

  function DemoteAll(m: Clients, losers: set<ClientId>, why: ComplianceMessage): Clients {
    map id | id in m :: if id in losers then Demoted(m[id], why) else m[id]
  }

  function Losers(group: set<ClientId>): set<ClientId> {
    set id | id in group && LosesIn(group, id)
  }

  /** The collisions over the ports in `done` have been settled, and only those. */
  ghost predicate PortsSettled(clients: Clients, done: set<nat>, out: Clients) {
    && out.Keys == clients.Keys
    && (forall id <- clients ::
          out[id] == if LosesPort(clients, id) && clients[id].targetPort.value in done
                     then Demoted(clients[id], PortCollides(clients[id].targetPort.value)) else clients[id])
  }

  ghost predicate UsagesSettled(clients: Clients, ported: Clients, done: set<UsageId>, out: Clients)
    requires ported.Keys == clients.Keys
  {
    && out.Keys == clients.Keys
    && (forall id <- clients ::
          out[id] == if LosesUsage(clients, id) && clients[id].usageId in done
                     then Demoted(ported[id], UsageCollides(clients[id].usageId)) else ported[id])
  }

  lemma SettlePort(clients: Clients, done: set<nat>, out: Clients, port: nat)
    requires PortsSettled(clients, done, out) && port !in done
    ensures PortsSettled(clients, done + {port}, DemoteAll(out, Losers(PortGroup(clients, port)), PortCollides(port)))
  {
  }

  lemma SettleUsage(clients: Clients, ported: Clients, done: set<UsageId>, out: Clients, usage: UsageId)
    requires ported.Keys == clients.Keys && UsagesSettled(clients, ported, done, out) && usage !in done
    ensures UsagesSettled(clients, ported, done + {usage},
                          DemoteAll(out, Losers(UsageGroup(clients, usage)), UsageCollides(usage)))
  {
  }

  lemma NoLosers(m: Clients, group: set<ClientId>, why: ComplianceMessage)
    requires |group| <= 1
    ensures DemoteAll(m, Losers(group), why) == m
  {
  }

  method SettleGroup(m: Clients, group: set<ClientId>, why: ComplianceMessage) returns (out: Clients)
    ensures out == DemoteAll(m, Losers(group), why)
  {
    if |group| > 1 {
      var losers := LosingCollision(group);
      out := DemoteAll(m, losers, why);
    } else {
      NoLosers(m, group, why);
      out := m;
    }
  }

  method DemotePorts(clients: Clients, ports: map<nat, set<ClientId>>) returns (out: Clients)
    requires forall p <- ports :: ports[p] == PortGroup(clients, p)
    ensures PortsSettled(clients, ports.Keys, out)
  {
    out := clients;
    var pending, done := ports.Keys, {};
    while pending != {}
      invariant done + pending == ports.Keys && done !! pending
      invariant PortsSettled(clients, done, out)
      decreases |pending|
    {
      var port :| port in pending;
      SettlePort(clients, done, out, port);
      out := SettleGroup(out, ports[port], PortCollides(port));
      done := done + {port};
      pending := pending - {port};
    }
    assert done == ports.Keys;
  }

  method DemoteUsages(clients: Clients, ported: Clients, usages: map<UsageId, set<ClientId>>) returns (out: Clients)
    requires forall u <- usages :: usages[u] == UsageGroup(clients, u)
    requires ported.Keys == clients.Keys
    ensures UsagesSettled(clients, ported, usages.Keys, out)
  {
    out := ported;
    var pending, done := usages.Keys, {};
    while pending != {}
      invariant done + pending == usages.Keys && done !! pending
      invariant UsagesSettled(clients, ported, done, out)
      decreases |pending|
    {
      var usage :| usage in pending;
      SettleUsage(clients, ported, done, out, usage);
      out := SettleGroup(out, usages[usage], UsageCollides(usage));
      done := done + {usage};
      pending := pending - {usage};
    }
    assert done == usages.Keys;
  }

  ghost predicate Ordered(m: Clients, s: seq<ClientId>) {
    && (forall id <- s :: id in m)
    && (forall i: nat, j: nat | i < j < |s| :: Before(m, s[i], s[j]))
  }

  method SortEligible(m: Clients) returns (sorted: seq<ClientId>)
    ensures Ordered(m, sorted)
    ensures forall id :: id in sorted <==> id in EligibleIds(m)
  {
    sorted := [];
    var pending := EligibleIds(m);
    while pending != {}
      invariant pending <= EligibleIds(m) && Ordered(m, sorted)
      invariant forall id :: id in sorted <==> id in EligibleIds(m) - pending
      decreases |pending|
    {
      var id :| id in pending;
      var at := 0;
      while at < |sorted| && Before(m, sorted[at], id)
        invariant 0 <= at <= |sorted|
        invariant forall k: nat | k < at :: Before(m, sorted[k], id)
      {
        at := at + 1;
      }
      InsertOrdered(m, sorted, at, id);
      sorted := sorted[..at] + [id] + sorted[at..];
      pending := pending - {id};
    }
  }

  lemma InsertOrdered(m: Clients, s: seq<ClientId>, at: nat, id: ClientId)
    requires Ordered(m, s) && id in m && id !in s && at <= |s|
    requires forall k: nat | k < at :: Before(m, s[k], id)
    requires at < |s| ==> !Before(m, s[at], id)
    ensures Ordered(m, s[..at] + [id] + s[at..])
    ensures forall x :: x in s[..at] + [id] + s[at..] <==> x in s || x == id
  {
    forall k: nat | at <= k < |s| ensures Before(m, id, s[k]) {
      BeforeStrictTotal(m, id, s[at]);
      if at < k { BeforeTransitive(m, id, s[at], s[k]); }
    }
    var r := s[..at] + [id] + s[at..];
    assert s == s[..at] + s[at..];
    forall i: nat, j: nat | i < j < |r| ensures Before(m, r[i], r[j]) {
    }
  }

  function Front(s: seq<ClientId>, i: nat): set<ClientId>
    requires i <= |s|
  {
    set k: nat | k < i :: s[k]
  }

  /** In a sorted list, a client's position is the number of clients ahead of it. */
  lemma PositionIsRank(m: Clients, s: seq<ClientId>, i: nat)
    requires Ordered(m, s) && i < |s|
    requires forall id :: id in s <==> id in EligibleIds(m)
    ensures |Ahead(m, s[i])| == i
  {
    var front := Front(s, i);
    assert front == Ahead(m, s[i]) by {
      forall id | id in Ahead(m, s[i]) ensures id in front {
        assert id in EligibleIds(m);
        var k: nat :| k < |s| && s[k] == id;
        BeforeStrictTotal(m, s[i], s[i]);
        if i < k { BeforeTransitive(m, s[i], s[k], s[i]); }
      }
      forall id | id in front ensures id in Ahead(m, s[i]) {
        var k: nat :| k < i && s[k] == id;
        assert s[k] in s;
      }
    }
    DistinctPrefix(m, s, i);
  }

  lemma {:induction false} DistinctPrefix(m: Clients, s: seq<ClientId>, i: nat)
    requires Ordered(m, s) && i <= |s|
    ensures |Front(s, i)| == i
  {
    if i == 0 {
      assert Front(s, i) == {};
    } else {
      DistinctPrefix(m, s, i - 1);
      assert Front(s, i) == Front(s, i - 1) + {s[i - 1]};
      if s[i - 1] in Front(s, i - 1) {
        var k: nat :| k < i - 1 && s[k] == s[i - 1];
        BeforeStrictTotal(m, s[k], s[k]);
        assert false;
      }
    }
  }

  /** The sorted eligible clients from the limit up to `n` have lost their lease, and only those. */
  ghost predicate LimitedUpTo(settled: Clients, maxLeases: nat, eligible: seq<ClientId>, n: nat, out: Clients)
    requires n <= |eligible|
  {
    && out.Keys == settled.Keys
    && (forall id <- settled ::
          out[id] == if id in eligible[Min(maxLeases, n)..n]
                     then Demoted(settled[id], LeaseLimitReached(maxLeases)) else settled[id])
  }

  /** Being past the limit in the sorted list is having that many clients ahead. */
  lemma PastTheLimit(m: Clients, maxLeases: nat, s: seq<ClientId>, id: ClientId)
    requires Ordered(m, s) && id in m
    requires forall x :: x in s <==> x in EligibleIds(m)
    ensures id in s[Min(maxLeases, |s|)..] <==> Forwarding(m[id]) && |Ahead(m, id)| >= maxLeases
  {
    var from := Min(maxLeases, |s|);
    if id in s {
      var i: nat :| i < |s| && s[i] == id;
      PositionIsRank(m, s, i);
      assert i >= from ==> s[from..][i - from] == id;
      if id in s[from..] {
        var k: nat :| k < |s[from..]| && s[from..][k] == id;
        PositionIsRank(m, s, from + k);
      }
    }
  }

  lemma LimitNext(settled: Clients, maxLeases: nat, eligible: seq<ClientId>, n: nat, out: Clients)
    requires n < |eligible| && eligible[n] in settled && LimitedUpTo(settled, maxLeases, eligible, n, out)
    ensures LimitedUpTo(settled, maxLeases, eligible, n + 1,
                        if maxLeases <= n
                        then out[eligible[n] := Demoted(out[eligible[n]], LeaseLimitReached(maxLeases))]
                        else out)
  {
    if maxLeases <= n { assert eligible[maxLeases..n + 1] == eligible[maxLeases..n] + [eligible[n]]; }
  }

  lemma LimitedAll(settled: Clients, maxLeases: nat, eligible: seq<ClientId>, out: Clients)
    requires LimitedUpTo(settled, maxLeases, eligible, |eligible|, out) && Ordered(settled, eligible)
    requires forall x :: x in eligible <==> x in EligibleIds(settled)
    ensures out == Limited(settled, maxLeases)
  {
    assert eligible[Min(maxLeases, |eligible|)..|eligible|] == eligible[Min(maxLeases, |eligible|)..];
    forall id <- settled ensures out[id] == Limited(settled, maxLeases)[id] {
      PastTheLimit(settled, maxLeases, eligible, id);
    }
  }

  method LimitLeases(settled: Clients, maxLeases: nat) returns (out: Clients)
    ensures out == Limited(settled, maxLeases)
  {
    out := settled;
    var eligible := SortEligible(settled);
    for i := 0 to |eligible|
      invariant LimitedUpTo(settled, maxLeases, eligible, i, out)
    {
      assert eligible[i] in eligible;
      LimitNext(settled, maxLeases, eligible, i, out);
      if maxLeases <= i {
        out := out[eligible[i] := Demoted(out[eligible[i]], LeaseLimitReached(maxLeases))];
      }
    }
    LimitedAll(settled, maxLeases, eligible, out);
  }

  lemma IndexesCover(m: Clients, ports: map<nat, set<ClientId>>, usages: map<UsageId, set<ClientId>>)
    requires PortIndex(m, m.Keys, ports) && UsageIndex(m, m.Keys, usages)
    ensures forall p <- ports :: ports[p] == PortGroup(m, p)
    ensures forall u <- usages :: usages[u] == UsageGroup(m, u)
    ensures forall id <- m | LosesPort(m, id) :: m[id].targetPort.value in ports
    ensures forall id <- m | LosesUsage(m, id) :: m[id].usageId in usages
  {
    forall id | id in m && LosesPort(m, id) ensures m[id].targetPort.value in ports {
      assert id in PortGroup(m, m[id].targetPort.value);
    }
    forall id | id in m && LosesUsage(m, id) ensures m[id].usageId in usages {
      assert id in UsageGroup(m, m[id].usageId);
    }
  }

  lemma BothSettled(m: Clients, ports: set<nat>, usages: set<UsageId>, ported: Clients, out: Clients)
    requires PortsSettled(m, ports, ported) && UsagesSettled(m, ported, usages, out)
    requires forall id <- m | LosesPort(m, id) :: m[id].targetPort.value in ports
    requires forall id <- m | LosesUsage(m, id) :: m[id].usageId in usages
    ensures out == Settled(m)
  {
  }

  method ApplyPortForwardConstraints(clients: Clients, maxLeases: nat) returns (out: Clients)
    ensures out == Constrained(clients, maxLeases)
  {
    var ports, usages := Groups(clients);
    IndexesCover(clients, ports, usages);
    var ported := DemotePorts(clients, ports);
    out := DemoteUsages(clients, ported, usages);
    BothSettled(clients, ports.Keys, usages.Keys, ported, out);
    out := LimitLeases(out, maxLeases);
  }

  // ------------------------------------------------------------------------- guarantees

  /** No two of these forwarding clients share a target port or a usage ID. */
  ghost predicate Distinct(m: Clients, ids: set<ClientId>)
    requires ids <= m.Keys
  {
    forall a <- ids, b <- ids | a != b && Forwarding(m[a]) && Forwarding(m[b]) :: Apart(m, a, b)
  }

  function DockerIds(m: Clients): set<ClientId> { set id | id in m && !IsPod(id) }

  lemma RanksDiffer(m: Clients, a: ClientId, b: ClientId)
    requires a in EligibleIds(m) && b in EligibleIds(m) && a != b
    ensures |Ahead(m, a)| != |Ahead(m, b)|
  {
    BeforeStrictTotal(m, a, b);
    BeforeStrictTotal(m, b, a);
    if Before(m, a, b) { RankGrows(m, a, b); } else { RankGrows(m, b, a); }
  }

  lemma RankGrows(m: Clients, a: ClientId, b: ClientId)
    requires a in EligibleIds(m) && b in EligibleIds(m) && Before(m, a, b)
    ensures |Ahead(m, a)| < |Ahead(m, b)|
  {
    BeforeStrictTotal(m, a, a);
    forall x | x in Ahead(m, a) ensures x in Ahead(m, b) { BeforeTransitive(m, x, a, b); }
    assert Ahead(m, a) + {a} <= Ahead(m, b);
    SubsetSize(Ahead(m, a) + {a}, Ahead(m, b));
  }

  /** At most `n` clients have fewer than `n` ahead of them. */
  lemma {:induction false} FewLeaders(m: Clients, n: nat)
    ensures |set id | id in EligibleIds(m) && |Ahead(m, id)| < n| <= n
  {
    var leaders := set id | id in EligibleIds(m) && |Ahead(m, id)| < n;
    if n == 0 {
      assert leaders == {};
    } else {
      FewLeaders(m, n - 1);
      var fewer := set id | id in EligibleIds(m) && |Ahead(m, id)| < n - 1;
      if leaders <= fewer {
        SubsetSize(leaders, fewer);
      } else {
        var last :| last in leaders && last !in fewer;
        forall id | id in leaders ensures id in fewer + {last} {
          if id != last { RanksDiffer(m, id, last); }
        }
        SubsetSize(leaders, fewer + {last});
      }
    }
  }

  /** At most the limit keep a lease, after any pass. */
  lemma LimitHolds(m: Clients, maxLeases: nat)
    ensures |EligibleIds(Constrained(m, maxLeases))| <= maxLeases
  {
    var s := Settled(m);
    FewLeaders(s, maxLeases);
    SubsetSize(EligibleIds(Constrained(m, maxLeases)), set id | id in EligibleIds(s) && |Ahead(s, id)| < maxLeases);
  }

  /** Two clients in one collision do not both survive unless both are Docker clients and a pod is involved. */
  lemma SurvivorsOfGroup(group: set<ClientId>, a: ClientId, b: ClientId)
    requires a in group && b in group && a != b && !LosesIn(group, a) && !LosesIn(group, b)
    ensures !IsPod(a) && !IsPod(b) && exists pod <- group :: IsPod(pod)
  {
    SubsetSize({a, b}, group);
  }

  ghost predicate Apart(m: Clients, a: ClientId, b: ClientId)
    requires a in m && b in m
  {
    m[a].usageId != m[b].usageId && (m[a].targetPort.Some? ==> m[a].targetPort != m[b].targetPort)
  }

  /** Two survivors of a pass are apart, unless both are Docker clients in a collision with a pod. */
  lemma SurvivorsApart(m: Clients, maxLeases: nat, a: ClientId, b: ClientId)
    requires a in m && b in m && a != b
    requires var r := Constrained(m, maxLeases); Forwarding(r[a]) && Forwarding(r[b])
    ensures Forwarding(m[a]) && Forwarding(m[b])
    ensures !Apart(m, a, b) ==> !IsPod(a) && !IsPod(b) && exists pod <- m :: IsPod(pod)
  {
    assert !LosesUsage(m, a) && !LosesUsage(m, b) && !LosesPort(m, a) && !LosesPort(m, b);
    if m[a].usageId == m[b].usageId {
      SurvivorsOfGroup(UsageGroup(m, m[a].usageId), a, b);
    } else if !Apart(m, a, b) {
      SurvivorsOfGroup(PortGroup(m, m[a].targetPort.value), a, b);
    }
  }

  /** If no two Docker clients collide, one pass leaves every eligible client distinct. */
  lemma PassLeavesDistinct(m: Clients, maxLeases: nat)
    requires Distinct(m, DockerIds(m))
    ensures var r := Constrained(m, maxLeases); Distinct(r, r.Keys)
  {
    var r := Constrained(m, maxLeases);
    forall a <- r, b <- r | a != b && Forwarding(r[a]) && Forwarding(r[b]) ensures Apart(r, a, b) {
      SurvivorsApart(m, maxLeases, a, b);
      assert Apart(m, a, b) by {
        assert !IsPod(a) && !IsPod(b) ==> a in DockerIds(m) && b in DockerIds(m);
      }
    }
  }

  /** Among Docker clients alone a pass needs no such condition: every colliding client loses. */
  lemma DockerPassLeavesDistinct(docker: Clients, maxLeases: nat)
    requires forall id <- docker :: !IsPod(id)
    ensures var r := Constrained(docker, maxLeases); Distinct(r, r.Keys)
  {
    var r := Constrained(docker, maxLeases);
    forall a <- r, b <- r | a != b && Forwarding(r[a]) && Forwarding(r[b]) ensures Apart(r, a, b) {
      SurvivorsApart(docker, maxLeases, a, b);
    }
  }

  /** A pass over a union leaves alone any Docker client when the Docker clients are distinct and within the limit. */
  lemma PodsCannotTakeLeases(m: Clients, maxLeases: nat, id: ClientId)
    requires Distinct(m, DockerIds(m)) && id in DockerIds(m)
    requires |EligibleIds(m) * DockerIds(m)| <= maxLeases
    ensures Constrained(m, maxLeases)[id] == m[id]
  {
    if LosesUsage(m, id) { LoneDockerNeverLoses(m, UsageGroup(m, m[id].usageId), id); assert false; }
    if LosesPort(m, id) { LoneDockerNeverLoses(m, PortGroup(m, m[id].targetPort.value), id); assert false; }
    var s := Settled(m);
    if Forwarding(s[id]) {
      var ahead := Ahead(s, id);
      BeforeStrictTotal(s, id, id);
      forall x | x in ahead ensures x in EligibleIds(m) * DockerIds(m) - {id} {
        assert Before(s, x, id);
      }
      SubsetSize(ahead, EligibleIds(m) * DockerIds(m) - {id});
    }
  }

  lemma LoneDockerNeverLoses(m: Clients, group: set<ClientId>, id: ClientId)
    requires Distinct(m, DockerIds(m)) && id in DockerIds(m) && id in group && group <= EligibleIds(m)
    requires (exists u :: group == UsageGroup(m, u)) || (exists p :: group == PortGroup(m, p))
    ensures !LosesIn(group, id)
  {
    if |group| > 1 {
      assert |group - {id}| == |group| - 1;
      var other :| other in group - {id};
      assert IsPod(other) by { assert !IsPod(other) ==> other in DockerIds(m); }
    }
  }

  /** The union of settled Docker clients with any pods meets what a second pass needs. */
  lemma UnionIsReady(alone: Clients, pods: Clients)
    requires (forall id <- alone :: !IsPod(id)) && (forall id <- pods :: IsPod(id))
    requires Distinct(alone, alone.Keys)
    ensures var union := alone + pods;
            && DockerIds(union) == alone.Keys
            && Distinct(union, DockerIds(union))
            && EligibleIds(union) * DockerIds(union) == EligibleIds(alone)
            && (forall id <- alone :: union[id] == alone[id])
  {
  }

  /**
   Two-pass discovery: whatever the pods claim, every Docker client ends exactly as if no pod
   existed, the eligible target ports and usage IDs are pairwise distinct, and at most
   `maxLeases` clients are eligible.
   */
  lemma TwoPassSelection(docker: Clients, pods: Clients, maxLeases: nat)
    requires (forall id <- docker :: !IsPod(id)) && (forall id <- pods :: IsPod(id))
    ensures var alone := Constrained(docker, maxLeases);
            var both := Constrained(alone + pods, maxLeases);
            && (forall id <- docker :: both[id] == alone[id])
            && Distinct(both, both.Keys)
            && |EligibleIds(both)| <= maxLeases
  {
    var alone := Constrained(docker, maxLeases);
    var union := alone + pods;
    var both := Constrained(union, maxLeases);
    DockerPassLeavesDistinct(docker, maxLeases);
    LimitHolds(docker, maxLeases);
    UnionIsReady(alone, pods);
    forall id <- docker ensures both[id] == alone[id] {
      PodsCannotTakeLeases(union, maxLeases, id);
    }
    PassLeavesDistinct(union, maxLeases);
    LimitHolds(union, maxLeases);
  }

  /** A client with fewer others than leases survives the limit. */
  lemma FewEnough(m: Clients, maxLeases: nat, id: ClientId)
    requires id in m && |m| <= maxLeases
    ensures Limited(m, maxLeases)[id] == m[id]
  {
    BeforeStrictTotal(m, id, id);
    SubsetSize(Ahead(m, id), m.Keys - {id});
  }

  /** One pass over the union is not enough: a pod joining two colliding Docker clients lets both survive. */
  lemma OnePassIsNotEnough(m: Clients, a: ClientId, b: ClientId, pod: ClientId)
    requires m.Keys == {a, b, pod} && a != b && !IsPod(a) && !IsPod(b) && IsPod(pod)
    requires Forwarding(m[a]) && Forwarding(m[b]) && Forwarding(m[pod])
    requires m[a].targetPort == m[b].targetPort == m[pod].targetPort && m[a].targetPort.Some?
    requires m[a].usageId != m[b].usageId && m[pod].usageId != m[a].usageId && m[pod].usageId != m[b].usageId
    ensures !Distinct(Constrained(m, 3), m.Keys)
  {
    var s := Settled(m);
    CollidersSettleUnchanged(m, a, b, pod);
    assert s.Keys == {a, b, pod} && |s.Keys| == 3;
    FewEnough(s, 3, a);
    FewEnough(s, 3, b);
    assert !Apart(Constrained(m, 3), a, b);
  }

  /** The pod alone loses the collision it joins. */
  lemma CollidersSettleUnchanged(m: Clients, a: ClientId, b: ClientId, pod: ClientId)
    requires m.Keys == {a, b, pod} && a != b && !IsPod(a) && !IsPod(b) && IsPod(pod)
    requires Forwarding(m[a]) && Forwarding(m[b]) && Forwarding(m[pod])
    requires m[a].targetPort == m[b].targetPort == m[pod].targetPort && m[a].targetPort.Some?
    requires m[a].usageId != m[b].usageId && m[pod].usageId != m[a].usageId && m[pod].usageId != m[b].usageId
    ensures Settled(m).Keys == m.Keys && Settled(m)[a] == m[a] && Settled(m)[b] == m[b]
  {
    assert a in PortGroup(m, m[a].targetPort.value) && pod in PortGroup(m, m[a].targetPort.value);
    assert UsageGroup(m, m[a].usageId) == {a} && UsageGroup(m, m[b].usageId) == {b};
  }

  /** The listing a map of clients is handed on as. */
  ghost predicate Lists(listing: seq<Client>, m: Clients) {
    && (forall c <- listing :: c.containerId in m && m[c.containerId] == c)
    && (forall id <- m :: m[id].containerId == id && m[id] in listing)
    && (forall i: nat, j: nat | i < j < |listing| :: listing[i].containerId != listing[j].containerId)
  }

  /** Distinct usage IDs make target selection lossless: every eligible client is the target of its usage. */
  lemma EveryEligibleClientIsATarget(listing: seq<Client>, m: Clients, id: ClientId)
    requires Lists(listing, m) && Distinct(m, m.Keys)
    requires id in m && Eligible(m[id])
    ensures var targets := SelectTargets(listing);
            m[id].usageId in targets && targets[m[id].usageId] == TargetOf(m[id])
  {
    var i: nat :| i < |listing| && listing[i] == m[id];
    forall j: nat | i < j < |listing| && Eligible(listing[j]) ensures listing[j].usageId != m[id].usageId {
      assert listing[j] in listing;
    }
    LastWins(listing, i);
  }

  lemma {:induction false} LastWins(listing: seq<Client>, i: nat)
    requires i < |listing| && Eligible(listing[i])
    requires forall j: nat | i < j < |listing| && Eligible(listing[j]) :: listing[j].usageId != listing[i].usageId
    ensures var targets := SelectTargets(listing);
            listing[i].usageId in targets && targets[listing[i].usageId] == TargetOf(listing[i])
  {
    var n := |listing| - 1;
    if i < n {
      assert forall j: nat | i < j < n && Eligible(listing[..n][j]) :: listing[..n][j] == listing[j];
      LastWins(listing[..n], i);
    }
  }
}
