/** Who keeps a port-forward lease, who loses it, and why. */
module LeaseOutcomes {
  import opened Basics
  import opened Enforcement
  import opened Leases

  // -------------------------------------------------------------------------- collisions

  /** Two forwarding clients with one usage ID. */
  predicate ShareUsage(m: Clients, a: ClientId, b: ClientId) {
    && a in m && b in m && a != b && Forwarding(m[a]) && Forwarding(m[b])
    && m[a].usageId == m[b].usageId
  }

  /** Two forwarding clients with one target port. */
  predicate SharePort(m: Clients, a: ClientId, b: ClientId) {
    && a in m && b in m && a != b && Forwarding(m[a]) && Forwarding(m[b])
    && m[a].targetPort.Some? && m[a].targetPort == m[b].targetPort
  }

  lemma LosesIff(group: set<ClientId>, id: ClientId)
    requires id in group
    ensures LosesIn(group, id) <==>
            (exists other <- group :: other != id) && (IsPod(id) || forall other <- group :: !IsPod(other))
  {
    if other :| other in group && other != id {
      SubsetSize({id, other}, group);
    } else {
      assert group == {id};
    }
  }

  /** A client loses a collision exactly if it is a pod, or every other in it is a Docker client. */
  lemma LosesUsageIff(m: Clients, id: ClientId)
    requires id in m
    ensures LosesUsage(m, id) <==>
            && (exists other :: ShareUsage(m, id, other))
            && (IsPod(id) || forall other | ShareUsage(m, id, other) :: !IsPod(other))
  {
    var group := UsageGroup(m, m[id].usageId);
    if id in group { LosesIff(group, id); }
    forall other ensures ShareUsage(m, id, other) <==> id in group && other in group && other != id {}
  }

  lemma LosesPortIff(m: Clients, id: ClientId)
    requires id in m
    ensures LosesPort(m, id) <==>
            && (exists other :: SharePort(m, id, other))
            && (IsPod(id) || forall other | SharePort(m, id, other) :: !IsPod(other))
  {
    if m[id].targetPort.Some? {
      var group := PortGroup(m, m[id].targetPort.value);
      if id in group { LosesIff(group, id); }
      forall other ensures SharePort(m, id, other) <==> id in group && other in group && other != id {}
    }
  }

  /** Everything about the client but its compliance and the reason is as it was. */
  predicate OnlyDemoted(before: Client, after: Client, why: ComplianceMessage) {
    && !after.compliant && after.message == why
    && after == before.(compliant := after.compliant, message := after.message)
  }

  /** What settling the collisions does to a client: a usage is named before a port, and nobody else is touched. */
  lemma CollisionDecides(m: Clients, id: ClientId)
    requires id in m
    ensures var after := Settled(m)[id];
            if LosesUsage(m, id) then OnlyDemoted(m[id], after, UsageCollides(m[id].usageId))
            else if LosesPort(m, id)
            then m[id].targetPort.Some? && OnlyDemoted(m[id], after, PortCollides(m[id].targetPort.value))
            else after == m[id]
  {
  }

  // ------------------------------------------------------------------------------- limit

  /** The order of usage IDs is that of text: a prefix comes first, else the first differing character decides. */
  lemma {:induction false} LessIff(a: string, b: string)
    ensures Less(a, b) <==>
            (a <= b && a != b) || exists k | 0 <= k < |a| && k < |b| :: a[..k] == b[..k] && a[k] < b[k]
  {
    if a != "" && b != "" && a[0] == b[0] {
      LessIff(a[1..], b[1..]);
      if k :| 0 <= k < |a[1..]| && k < |b[1..]| && a[1..][..k] == b[1..][..k] && a[1..][k] < b[1..][k] {
        assert a[..k + 1] == [a[0]] + a[1..][..k] && b[..k + 1] == [b[0]] + b[1..][..k];
        assert a[k + 1] < b[k + 1];
      }
      if k :| 0 <= k < |a| && k < |b| && a[..k] == b[..k] && a[k] < b[k] {
        assert k > 0 && a[..k][1..] == a[1..][..k - 1] && b[..k][1..] == b[1..][..k - 1];
        assert a[1..][k - 1] < b[1..][k - 1];
      }
      assert a == [a[0]] + a[1..] && b == [b[0]] + b[1..];
      assert a <= b <==> a[1..] <= b[1..];
    } else if a != "" && b != "" {
      assert a[..0] == b[..0];
      if k :| 0 <= k < |a| && k < |b| && a[..k] == b[..k] && a[k] < b[k] {
        assert k > 0 ==> a[..k][0] == a[0] && b[..k][0] == b[0];
      }
    }
  }

  /** The client still forwards after the pass. */
  predicate Keeps(m: Clients, maxLeases: nat, id: ClientId)
    requires id in m
  {
    Forwarding(Constrained(m, maxLeases)[id])
  }

  /** Who keeps a lease has lost no collision and is as it was; who loses it to the limit alone is told so. */
  lemma LimitDecides(m: Clients, maxLeases: nat, id: ClientId)
    requires id in EligibleIds(Settled(m))
    ensures Constrained(m, maxLeases)[id] ==
            if Keeps(m, maxLeases, id) then m[id]
            else m[id].(compliant := false, message := LeaseLimitReached(maxLeases))
  {
  }

  /** Of two clients past the collisions, the first has the better claim to a lease. */
  predicate Outranks(m: Clients, a: ClientId, b: ClientId)
    requires a in m && b in m
  {
    || (!IsPod(a) && IsPod(b))
    || (IsPod(a) == IsPod(b) && Less(m[a].usageId, m[b].usageId))
    || (IsPod(a) == IsPod(b) && m[a].usageId == m[b].usageId && Less(a, b))
  }

  /** Leases go to Docker clients before pods, and among either to the lowest usage IDs. */
  lemma BetterClaimsKeep(m: Clients, maxLeases: nat, a: ClientId, b: ClientId)
    requires a in EligibleIds(Settled(m)) && b in EligibleIds(Settled(m))
    requires Outranks(m, a, b) && Keeps(m, maxLeases, b)
    ensures Keeps(m, maxLeases, a)
  {
    RankGrows(Settled(m), a, b);
  }

  /** No lease is left unused: when somebody is refused for the limit, exactly that many are kept. */
  lemma {:induction false} LeasesAreUsed(m: Clients, maxLeases: nat, id: ClientId)
    requires id in EligibleIds(Settled(m)) && !Keeps(m, maxLeases, id)
    ensures |EligibleIds(Constrained(m, maxLeases))| == maxLeases
    decreases |Ahead(Settled(m), id)|
  {
    var s := Settled(m);
    if x :| x in Ahead(s, id) && !Keeps(m, maxLeases, x) {
      RankGrows(s, x, id);
      LeasesAreUsed(m, maxLeases, x);
    } else {
      SubsetSize(Ahead(s, id), EligibleIds(Constrained(m, maxLeases)));
      LimitHolds(m, maxLeases);
    }
  }
}
