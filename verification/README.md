# Egressy in Dafny

A model of Egressy, the gateway that sends enrolled containers through a WireGuard tunnel and nowhere
else, with proofs of what its parts promise. Each component is a module or two: one with the state, the
operations and, where the program updates things in place, a class whose methods are proved against
functions of the old state; one with the theorems, over every input or every run.

| component | modules |
|---|---|
| DNAT and traffic counters | `Enforcement`, `EnforcementSafety`, `CounterNames`, `CounterConservation` |
| transition window and event log | `Domain`, `Window`, `Publisher` |
| port-forward leases | `Leases`, `LeaseOutcomes` |
| DNS admission, health and cache | `Admission`, `AdmissionSafety`, `AdmissionShares`, `AdmissionOutcomes`, `Health`, `DnsCache` |
| bridge isolation | `IsolationRules`, `IsolationMeaning`, `Labels`, `PolicyBuild`, `PolicyCompiler`, `PodsCannotInterfere`, `PolicyMeaning` |
| gateway firewall | `GatewayFirewall` |
| host policy and its repair | `HostRepair`, `HostRepairSafety` |
| WireGuard profiles | `WireGuardProfile`, `WireGuardRender`, `WireGuardParsed`, `WireGuardAccepted`, `WireGuardReading`, `WireGuardLines`, `WireGuardSearch`, `WireGuardSource`, `WireGuardSize`, `WireGuardRoundTrip` |
| applying a profile | `Tunnel`, `TunnelMeaning`, `Syncconf`, `ProfileManager` |
| shared | `Basics`, `Addresses`, `Text` |

`dafny verify dfyconfig.toml` checks everything.

## Conventions

- Commands, files, sockets and clocks are parameters. A command succeeds as a whole or fails; where a run
  issues several, a set of numbers says which of them fail, and theorems hold for every such set.
- A concurrent component is a state machine over its steps. Enforcement calls hold a lock, so events are
  whole calls, with traffic and outside resets between and inside them. DNS acquires are serial, with
  releases at every point inside one.
- Hash-map order is an arbitrary choice; results are proved not to depend on it, or hold for each choice.
- Networks and addresses in a profile are read and printed by a given codec: what is read prints in a small
  alphabet and reads back. IPv4 and IPv6 networks of the bridge are ranges of numbers.
- Integers are unbounded except where width matters: 64-bit counters wrap, 32-bit counters saturate, and the
  128-bit health word is truncated.

## Where a promise does not hold as stated

Each has a lemma or method with a case in which it fails, and the exact condition under which it holds.

- Rules follow the latest listing: a listing whose kernel read fails is lost. `ListingFollowedIff`,
  `LostListingInstallsStaleRules`.
- The event log folds to the checks and each transition starts where the last one ended: `LogSurvivesIff` for both,
  `ChainSurvivesIff` for the second; `EmitCanBreakReplay`, `EmitCanBreakChain`.
- A total is the client's own traffic: counters go by the address they were installed with. `ReportsOwnTrafficIff`,
  `PacketIsReportedIff`; `ReusedAddressIsBilled`, `MovedClientIsMissed`.
- A reset of the kernel's counters is noticed: not if more has passed since than was last read. `ResetIsNoticedIff`.
- A successful apply leaves no other DNAT rule, a successful disable none: `InstalledRulesAreCurrent`,
  `QuietAfterDisable`; `DeniedTableSurvivesDisable`.
- Answers inside a denial can be served past their TTL: `AnswersStayWithinIff`, `DenialCanOverserveAnswers`.
- A new IPv4 rule may select an empty table, unlike the IPv6 one: `NewIpv4RuleFindsLastResortIff`,
  `NewIpv4RuleCanFindNothing`.
- A profile whose private key ends in `Table = off` is lost by `render_source`: `SurvivesIff`, `TableKeyIsLost`.
- A commit settles the candidate: `Transact` with `AppliedSettlesIff`, `CommitWithoutRoutes`.
- Traffic is blocked after a failure without rollback: the last clause of `Manager.Apply`, `BlockedIff`;
  `FailureWithTraffic`.
- Enrolled lookups never fall through to the main table: `RulesStandIff` says exactly which failing commands let them;
  `LeaveUnrouted` is such a failure. What then reaches the forward chain is dropped there (`NothingLeaks`).

Two bounds have limits of their own. One constraint pass over Docker clients and pods together does not always
leave leases distinct (`OnePassIsNotEnough`); the two passes the program makes do (`TwoPassSelection`). The client
table can outgrow its capacity and the pool, but only by slots that outlive their global permits
(`TableStaysBounded`, `TableOutgrowsThePool`). Counter names leave out hyphens (`HyphensAreIgnored`), which makes no
difference: what is counted has none, and identifiers in use have names of their own (`CountedNamesAgreeIff`,
`IdentifiersNameTheirCounters`).

Where comments and code differ the code is followed: the comment on `rule_present` (src/host_policy.rs:322-326)
accepts a table by name, the code compares only the number. A failing DNAT set is reported as an error but stays
wanted (`FailedSetIsRemembered`). When listing revisions fails after activation, `apply` returns an error although
the candidate is active (`CommittedUnlisted`); when the base ruleset cannot be applied, the lifecycle stays at
Applying.

## Model

| member | source | states |
|---|---|---|
| `Enforcement.SelectDnatTargets` | src/enforcement.rs:279-294 | The loop's target map is `SelectTargets` of the listing. |
| `EnforcementSafety.SelectedIff` | src/enforcement.rs:279-294 | A usage has a target if and only if some eligible client of the listing resolves to it and no later eligible client claims the same usage. |
| `Enforcement.EnforcementCoordinator.constructor` | src/enforcement.rs:112-119 | A coordinator starts with nothing allowed, wanted or applied. |
| `Enforcement.EnforcementCoordinator.ObserveKernelLocked` | src/enforcement.rs:245-277 | Reads every client counter into its accumulators, or fails and changes nothing; a table whose listing exits with an error is taken as absent. |
| `Enforcement.EnforcementCoordinator.SeedAll` | src/enforcement.rs:53-56 | After a replacement every accumulator takes its seeded total as the last raw reading. |
| `Enforcement.EnforcementCoordinator.Apply` | src/enforcement.rs:190-243 | Observe, render from the read totals, replace; each failing point leaves exactly what it leaves, and a table that is denied is added to instead of deleted. |
| `Enforcement.EnforcementCoordinator.ReconcileBase` | src/enforcement.rs:120-123 | An apply of the current policy. |
| `Enforcement.EnforcementCoordinator.EnableDnat` | src/enforcement.rs:125-127 | Only permission changes; nothing is installed. |
| `Enforcement.EnforcementCoordinator.DisableDnat` | src/enforcement.rs:129-134 | Permission and wishes are dropped before the apply, and stay dropped if it fails. |
| `Enforcement.EnforcementCoordinator.SetDnatForTarget` | src/enforcement.rs:136-149 | Refused unless allowed and the target is still current; otherwise wanted, then applied. |
| `Enforcement.EnforcementCoordinator.ClearDnatForUsage` | src/enforcement.rs:151-155 | One usage is no longer wanted, then applied. |
| `Enforcement.EnforcementCoordinator.SampleClientCounters` | src/enforcement.rs:178-188 | A read without a replacement; totals come from the accumulators. |
| `Enforcement.EnforcementCoordinator.SyncClients` | src/enforcement.rs:296-319 | The loops keep the listed clients whose address is unchanged and enrol the others at zero. |
| `Enforcement.EnforcementCoordinator.ReconcileClients` | src/enforcement.rs:161-176 | Read, re-target, drop wishes whose target changed, re-enrol, apply: one `Reconcile` step. |
| `EnforcementSafety.ApplyKeepsIntent` | src/enforcement.rs:190-243 | An apply never changes what is wanted; if it succeeds the kernel's DNAT rules become the wanted ones, together with the old ones exactly if the old table was denied, and they stay untouched if it fails. |
| `EnforcementSafety.RunSound` | src/enforcement.rs:120-176 | Over every interleaving of calls and failures: entries are wanted only while allowed, and each carries the address and port of the current target of its usage. |
| `EnforcementSafety.DesiredPointsAtCompliantClients` | src/enforcement.rs:136-176 | In a sound state every wanted entry leads to a compliant forwarding client of the listing last heard. |
| `EnforcementSafety.InstalledRulesAreCurrent` | src/enforcement.rs:190-243 | After any step of any run whose apply succeeds, every wanted rule is installed, leads to a compliant client of the listing last heard and is wanted only while DNAT is allowed; no other rule is installed if and only if the old table was deleted or held no other. |
| `EnforcementSafety.KnownIsLastHeard` | src/enforcement.rs:161-176 | In any run that listing is the one of the latest reconcile whose own kernel read succeeded. |
| `EnforcementSafety.ListingFollowedIff` | src/enforcement.rs:161-176 | A reconcile makes what is wanted follow its listing, whatever the listing, if and only if its kernel read succeeds or nothing is wanted. |
| `EnforcementSafety.LostListingKeepsRules` | src/enforcement.rs:161-176 | After an empty listing whose read failed, the next apply to succeed installs every rule still wanted, in any state. |
| `EnforcementSafety.LostListingInstallsStaleRules` | src/enforcement.rs:136-176 | A run that gets there: any client that forwards, an empty listing that is lost, and its rule is installed although no listed client bears it. |
| `EnforcementSafety.AppliedIsInstalled` | src/enforcement.rs:157-159 | Over every run in which nobody else deletes the table, what `dnat_is_applied` confirms is in the kernel, through every failed apply; and it is all that is there if no table was denied. |
| `EnforcementSafety.UnmanagedKernelKeepsItsRules` | src/enforcement.rs:190-200 | With firewall management off no call changes the installed rules. |
| `EnforcementSafety.ShutUntilReopened` | src/enforcement.rs:125-149 | While shut, every run stays shut unless an enable is followed by a set whose target is still current. |
| `EnforcementSafety.AllowedOnlyByEnable` | src/enforcement.rs:125-134 | No step but an enable turns DNAT on. |
| `EnforcementSafety.QuietAfterDisable` | src/enforcement.rs:129-149 | After a successful disable nothing is installed if and only if the old table was deleted or held nothing, and then nothing is by any later interleaving until an enable and such a set. |
| `EnforcementSafety.DeniedTableSurvivesDisable` | src/enforcement.rs:213-218 | A disable that reports success and leaves every rule installed: the table is there, but listing it exits with an error. |
| `EnforcementSafety.FailedDisableIsRemembered` | src/enforcement.rs:129-134 | A disable whose apply fails takes effect with the next successful apply of any other task, under the same condition. |
| `EnforcementSafety.FailedSetIsRemembered` | src/enforcement.rs:136-149 | So does a set whose apply fails, although its caller is told of an error. |
| `EnforcementSafety.ClearTakesOneWish` | src/enforcement.rs:151-155 | A clear takes away that one wish and no other, whether or not its apply succeeds; if it does over a table it could list, exactly the other usages' rules are installed. |
| `EnforcementSafety.SetAddsOneWish` | src/enforcement.rs:136-149 | A set is ignored unless allowed and aimed at the current target; otherwise exactly that usage is wanted anew, the tunnel-side port leading to the target's address and port, and after such an apply exactly the wanted rules are installed. |
| `EnforcementSafety.ReconcileKeepsWishIff` | src/enforcement.rs:161-176 | A reconcile that hears its listing keeps a wish, unchanged, if and only if the old and the new listing lead its usage to the same target. |
| `CounterConservation.SharesBalance` | src/host.rs:131-166 | What a client's rules catch and what they miss of it make up its own traffic and others' over its addresses, over any history. |
| `CounterConservation.TotalsStayWithinTheCaught` | src/enforcement.rs:35-56 | Over every interleaving of traffic, reads, replacements, failures, moves, outside resets and 64-bit wrap-around, no total exceeds what the addresses installed for the client carried while they stood: its own traffic, less what it sent elsewhere, plus what others sent there. |
| `CounterConservation.OwnTrafficBoundsTotals` | src/enforcement.rs:35-56 | So no total exceeds the client's own traffic while its addresses are its alone and it uses no other. |
| `CounterConservation.ReportsFollowTheCounter` | src/enforcement.rs:190-276 | While the client stays where it is and nothing outside resets the table, what a read reports grows by exactly what its addresses carried less what passed between a read and its replacement, through replacements and failed applies. |
| `CounterConservation.ReportsOwnTrafficIff` | src/enforcement.rs:190-276 | Over such a run it grows by exactly the client's own traffic, or by no more, if and only if others' traffic over the installed addresses equals, or does not exceed, what the client sent elsewhere and what was lost. |
| `CounterConservation.PacketIsReportedIff` | src/host.rs:131-166 | A single packet is reported rightly if and only if its owner is the client exactly when its address is installed for the client. |
| `CounterConservation.MovedClientTakesOldCounter` | src/enforcement.rs:161-194 | A client listed at a new address is restarted at zero, and then its whole old counter is read into the new total. |
| `CounterConservation.ReusedAddressIsBilled` | src/enforcement.rs:161-194 | A run without failures in which a client is billed for another's traffic: it moves, and the other takes its address before the next listing. |
| `CounterConservation.MovedClientIsMissed` | src/enforcement.rs:161-243 | A run in which a client's traffic is not reported: its move is listed, but the table cannot be replaced. |
| `CounterConservation.SampleReports` | src/enforcement.rs:178-188 | A successful sample returns that figure. |
| `CounterConservation.CountedAreAlphanumeric` | src/enforcement.rs:296-319 | Over every run only clients with a non-empty alphanumeric identifier and an address other than 0.0.0.0 are ever counted, so no pod, whose identifier holds a hyphen, is. |
| `CounterConservation.SyncedIff` | src/enforcement.rs:296-319 | A listing leaves counted exactly its countable clients, at the addresses it gives, with their figures if they are where they were and from nothing otherwise. |
| `CounterConservation.ListedClientsAreCounted` | src/enforcement.rs:161-243 | At any point of any run, a reconcile that hears its listing and replaces the table leaves a kernel counter for exactly the listing's countable clients, matching exactly the addresses listed, IPv6 only where it is routed. |
| `CounterConservation.ResetIsNoticedIff` | src/enforcement.rs:35-56 | After something outside has zeroed a client's counter, the next read reports all that passed since if and only if that is less than the last reading, or the last reading was nothing. |
| `CounterConservation.CountedNamesAgreeIff` | src/host.rs:252-259 | Over every run two counted clients share a counter name if and only if the first 64 characters of their identifiers agree. |
| `CounterNames.NamesAgreeIff` | src/host.rs:252-259 | For any identifiers: names agree if and only if the first 64 letters and digits do, and an upload counter never shares a name with a download counter. |
| `CounterNames.IdentifiersNameTheirCounters` | src/kubernetes.rs:31-32 | Docker's 64 hexadecimal digits and pods' prefixed UUIDs all have counter names of their own. |
| `CounterNames.HyphensAreIgnored` | src/host.rs:252-259 | Two identifiers, differing in a hyphen, that do not; neither is ever counted. |
| `Window.VictimIsUnique` | src/domain.rs:36-48 | The entry to evict is determined by the window alone. |
| `Window.Tally` | src/domain.rs:36-44 | The loop counts each component's entries and remembers its oldest. |
| `Window.MaxHolding` | src/domain.rs:44-48 | The maximum over the hash map is found in whatever order it is walked. |
| `Window.MaxHoldingIsVictim` | src/domain.rs:44-48 | Any maximum under the source's ordering names the victim. |
| `Window.BusiestComponentsOldest` | src/domain.rs:36-48 | The returned index is the victim, whatever the hash order; none for an empty window. |
| `Window.TransitionLog.PushTransition` | src/domain.rs:24-34 | The eviction loop and the push produce `Push` of the old window. |
| `Window.VictimHoldsMoreThanShare` | src/domain.rs:24-48 | In a full window of at most m components the victim's component holds more than ceil(200/m) - 1 entries. |
| `Window.WindowFairness` | src/domain.rs:24-48 | In any run naming at most m components: at most 200 entries, in push order, of each component exactly its newest pushes, and at least min(its pushes, ceil(200/m) - 1) of them. |
| `Publisher.StatePublisher.Observe` | src/control.rs:37-98 | The locked snapshot becomes `AfterObserve` of the old one: check, sequence, window and broadcast. |
| `Publisher.StatePublisher.Emit` | src/control.rs:108-126 | The locked snapshot becomes `AfterEmit` of the old one. |
| `Publisher.StreamIsOrdered` | src/control.rs:37-126 | Over every run, sequence numbers strictly increase, never pass the snapshot's own, and the window is determined by the broadcast stream. |
| `Publisher.StepReplays` | src/control.rs:37-126 | Any call other than an event named after a check keeps that check's log replayable and chained. |
| `Publisher.LogReplaysToState` | src/control.rs:37-98 | Folding the whole stream from Pending gives every observed check's status and reason, each transition starting where the last one ended, if no bare event is named after the check. |
| `Publisher.CheckShowsLatestObservation` | src/control.rs:37-98 | A check exists once observed, shows its latest observation, and its failure count is the trailing run of failed or degraded observations, capped at 32 bits. |
| `Publisher.ChangedAtLatestChange` | src/control.rs:37-98 | A check's change time is that of its latest observation to report another status or reason than the one before it. |
| `Publisher.StreamIsTold` | src/control.rs:37-126 | Over every run the stream tells exactly what the calls have to tell and in their order: one transition for each observation that differs from the last of its check, with both statuses, reason, message and attempt, and one for each event; each takes one sequence number and the snapshot is as old as the last call. |
| `Publisher.EmitReplaysIff` | src/control.rs:108-126 | A bare event keeps every log replayable if and only if it is not named after a check, or repeats what that check shows. |
| `Publisher.EmitChainsIff` | src/control.rs:108-126 | A bare event keeps the chain of its own name if and only if the log of that name last ended Healthy. |
| `Publisher.ChainSurvivesIff` | src/control.rs:37-126 | Over every run each transition of a name starts where the previous one ended if and only if every bare event of that name came while its latest observation was Healthy. |
| `Publisher.LogSurvivesIff` | src/control.rs:37-126 | Over every run a check's log is chained and folds to the check at every moment if and only if every bare event of its name repeated its latest observation, Healthy and for the same reason. |
| `Publisher.EmitCanBreakReplay` | src/runtime.rs:1795-1803 | A run in which the fold fails: a usage called dnat makes the port-change event share its name with the check port_forward.dnat. |
| `Publisher.EmitCanBreakChain` | src/runtime.rs:1795-1803 | Runs in which the chain fails: the event after any observation of its name that is not Healthy, as a usage called verification can cause. |
| `Leases.Groups` | src/docker.rs:353-365 | The loops index eligible clients by target port and by usage. |
| `Leases.LosingCollision` | src/docker.rs:418-432 | Pods lose to Docker clients; among Docker clients alone, or pods alone, all lose. |
| `Leases.SettleGroup` | src/docker.rs:366-385 | Exactly the losers of a collision are demoted, with the reason. |
| `Leases.DemotePorts` | src/docker.rs:366-375 | Every port group with a collision is settled. |
| `Leases.DemoteUsages` | src/docker.rs:376-385 | Every usage group with a collision is settled. |
| `Leases.SortEligible` | src/docker.rs:387-400 | The eligible clients in claim order: Docker first, then usage, then identifier. |
| `Leases.LimitLeases` | src/docker.rs:387-408 | Exactly the clients past the limit in that order are demoted. |
| `Leases.ApplyPortForwardConstraints` | src/docker.rs:349-409 | The in-place passes over the client map produce `Constrained`. |
| `Leases.LimitHolds` | src/docker.rs:387-408 | At most `max_leases` clients are eligible after any pass. |
| `Leases.PassLeavesDistinct` | src/docker.rs:349-409 | If no two Docker clients collide, one pass leaves target ports and usages pairwise distinct. |
| `Leases.DockerPassLeavesDistinct` | src/docker.rs:349-409 | Over Docker clients alone a pass always does. |
| `Leases.PodsCannotTakeLeases` | src/docker.rs:349-432 | A pass over a union changes no Docker client when those are distinct and within the limit. |
| `Leases.TwoPassSelection` | src/runtime.rs:819-827 | Constraining Docker clients and then their union with any pods: distinct ports and usages, at most `max_leases` eligible, every Docker client as if no pod existed. |
| `Leases.OnePassIsNotEnough` | src/docker.rs:349-432 | One pass does not give this: two Docker clients and a pod on one port leave the two colliding. |
| `Leases.EveryEligibleClientIsATarget` | src/enforcement.rs:279-294 | With distinct usages, target selection loses nobody: every eligible client is the target of its usage. |
| `LeaseOutcomes.LosesUsageIff` | src/docker.rs:376-432 | A client loses its usage if and only if another eligible client has it too and it is a pod or all the others are Docker clients. |
| `LeaseOutcomes.LosesPortIff` | src/docker.rs:366-432 | The same for target ports. |
| `LeaseOutcomes.CollisionDecides` | src/docker.rs:366-385 | Losers stop being compliant and are told the usage, or else the port; of them nothing else changes, and of others nothing. |
| `LeaseOutcomes.LessIff` | src/docker.rs:387-400 | Usage IDs are ordered as text: a prefix first, else by the first character that differs. |
| `LeaseOutcomes.LimitDecides` | src/docker.rs:387-408 | A client eligible after the collisions keeps its lease, as it was, if and only if it has one of the first places; otherwise it is told of the limit and nothing else changes. |
| `LeaseOutcomes.BetterClaimsKeep` | src/docker.rs:387-408 | Leases go to Docker clients before pods and, among either, to the lowest usage IDs: whoever outranks a keeper keeps. |
| `LeaseOutcomes.LeasesAreUsed` | src/docker.rs:387-408 | If anybody is refused for the limit, exactly `max_leases` clients are eligible. |
| `Admission.QueryPermits.constructor` | src/dns.rs:217-229 | Limits are clamped as configured; all permits are free. |
| `Admission.QueryPermits.Prune` | src/dns.rs:319-329 | The loop drops idle entries with nothing in flight, and only when the table is full or stale. |
| `Admission.QueryPermits.ClientShareLocked` | src/dns.rs:248-267 | Prune, then find or enter the client; returns its counter and the number tracked. |
| `Admission.QueryPermits.Claim` | src/dns.rs:299-317 | The retry loop claims a slot if and only if the counter it finally reads is below the limit, whatever is returned between its reads. |
| `Admission.QueryPermits.AdmissionLimitNow` | src/dns.rs:269-278 | The share, or the whole pool while the reserve is free, or the fixed ceiling. |
| `Admission.QueryPermits.TakeGlobalNow` | src/dns.rs:237-244 | A global permit is taken, or the slot is given back. |
| `Admission.QueryPermits.TryAcquireNow` | src/dns.rs:231-246 | One acquire with releases at every point between its steps is `TryAcquire`. |
| `AdmissionSafety.RunConsistent` | src/dns.rs:168-329 | Over every run with releases anywhere inside acquires: free plus outstanding permits is the limit, and every tracked counter equals its client's live slots. |
| `AdmissionSafety.PrunedConsistent` | src/dns.rs:319-329 | Pruning never drops a counter in use. |
| `AdmissionSafety.NoUnderflow` | src/dns.rs:189-193 | Every held slot can be given back without underflow. |
| `AdmissionSafety.CeilingNeverExceeded` | src/dns.rs:217-246 | A fixed ceiling is never exceeded by any client in any run. |
| `AdmissionShares.SharesShrinkWithinBounds` | src/dns.rs:289-296 | The share is non-increasing in the number of clients and stays within [min(64, limit), limit]; one client has the whole pool. |
| `AdmissionShares.IdleClientIsAdmitted` | src/dns.rs:231-278 | A client with nothing in flight is admitted whenever one permit is free. |
| `AdmissionShares.AdmissionLeavesReserveOrShare` | src/dns.rs:269-278 | Every admission leaves the reserve free or the client within its share. |
| `AdmissionShares.BurstLeavesRoom` | src/dns.rs:231-296 | With permits returned whole, a burst by one client alone never leaves fewer than min(reserve, limit - share) permits free. |
| `AdmissionShares.ArrivalBoundsTable` | src/dns.rs:248-267 | An arrival leaves at most one client more than the capacity or the slots out. |
| `AdmissionShares.TableStaysBounded` | src/dns.rs:248-329 | Over every run, permits and slots returned in any order: at most max(1024, limit + the most slots that outlived their global permits) + 1 clients are tracked. |
| `AdmissionShares.OrderlyTableStaysBounded` | src/dns.rs:248-329 | So at most max(1024, limit) + 1 when no slot outlives its global permit. |
| `AdmissionShares.TableOutgrowsThePool` | src/dns.rs:178-193 | The extra term is needed: runs over a pool of one, each slot outliving its permit, that track more clients than any given number. In the program a slot outlives its permit only between two consecutive drops of one task, so such sizes are not reached there. |
| `AdmissionOutcomes.SettingsInNumbers` | src/dns.rs:217-229 | The pool has at least one permit, a quarter of it but at least one is the reserve, and a configured ceiling is kept within the pool. |
| `AdmissionOutcomes.OutcomeIff` | src/dns.rs:231-278 | In numbers: refused for the client if and only if it holds the fixed ceiling, or, without one, holds the whole pool, or at least 64 and its part of the pool while no more than the reserve is free; refused for the pool if and only if it has not its limit and no permit is left; admitted otherwise; whatever returns in between. |
| `AdmissionOutcomes.BorrowerIsAdmitted` | src/dns.rs:269-278 | Without a fixed ceiling, a client short of the whole pool is admitted whenever more than the reserve is free, whatever its share. |
| `AdmissionOutcomes.ArrivalTracks` | src/dns.rs:248-267 | An arrival finds active exactly itself and those tracked before, less those without slots that a due pruning finds idle for a minute, or finds at all in an overfull table. |
| `AdmissionOutcomes.SeenWhenItLastAsked` | src/dns.rs:248-267 | Over every run a tracked client was last seen when it last asked. |
| `Health.DnsHealthState.constructor` | src/dns.rs:413-428 | No history, no verdict. |
| `Health.DnsHealthState.Record` | src/dns.rs:430-462 | One outcome takes the fields to `Recorded` of the old ones. |
| `Health.DnsHealthState.EnterVerdict` | src/dns.rs:464-478 | A new status starts or ends an episode and is published. |
| `Health.DnsHealthState.ReaffirmVerdict` | src/dns.rs:480-500 | An unchanged status is published again only after the interval. |
| `Health.DnsHealthState.HasTroublePassed` | src/dns.rs:502-505 | The bit-counting loop decides at least 32 samples and at most one failure in eight. |
| `Health.WindowIsExact` | src/dns.rs:430-440 | Over every run the 128-bit word is the last outcomes in binary; its population count is the failures among the last min(k, 128). |
| `Health.CountersAreTrailing` | src/dns.rs:430-462 | The consecutive counters are the trailing runs, capped at 32 bits. |
| `Health.DegradedMeansEpisode` | src/dns.rs:430-478 | Every degraded state lies in one episode with one start and one cause. |
| `Health.EpisodeOpensIff` | src/dns.rs:430-462 | Outside an episode an outcome opens one if and only if it is a failure ending at least failure_threshold failures in a row; otherwise a success makes the status Healthy and a failure leaves it. |
| `Health.EpisodeClosesIff` | src/dns.rs:430-512 | An outcome closes the episode another opened if and only if it is a success at least 60 s later, ends at least success_threshold successes in a row, and among the last 128 outcomes, at least 32, at most one in eight failed. |
| `Health.StraightSuccessesRecover` | src/dns.rs:430-512 | max(success_threshold, 128) successes in a row ending past the dwell always recover. |
| `Health.VerdictsAreCurrent` | src/dns.rs:464-500 | A verdict is published if and only if the status changed, or is known and was not published for 30 s; it is the current status and cause. |
| `DnsCache.Cache.constructor` | src/dns_cache.rs:66-74 | An empty cache of at least one entry. |
| `DnsCache.Cache.LookupNow` | src/dns_cache.rs:76-109 | A hit is the stored reply with the caller's ID, RD and question and counted-down TTLs; an expired entry is dropped. |
| `DnsCache.Cache.EvictOne` | src/dns_cache.rs:209-223 | The loop finds an expired victim if there is one, else a least recent one. |
| `DnsCache.Cache.StoreNow` | src/dns_cache.rs:111-137 | Only cacheable replies are stored, evicting one entry when full. |
| `DnsCache.ShortestTtl` | src/dns_cache.rs:171-192 | The result is a TTL of the section and no TTL of it is smaller. |
| `DnsCache.TtlIsWithinItsSources` | src/dns_cache.rs:171-207 | A computed TTL is at most 300 s, every answer's TTL, and for denials the SOA's TTL and MINIMUM (sections 3 and 5 of RFC 2308). |
| `DnsCache.StoredFits` | src/dns_cache.rs:111-137 | A store never exceeds the capacity. |
| `DnsCache.CacheRefinesLog` | src/dns_cache.rs:76-137 | Over every run the cache holds at most its capacity and, per key, only the latest cacheable store of an unbounded log. |
| `DnsCache.HitIsLatestStore` | src/dns_cache.rs:76-109 | Every hit, in any run, is the reply of the latest cacheable store made for the same resolver, name but for case, type and class, younger than its TTL; only ID, RD, question and TTLs differ, those being the entry's rest in whole seconds; no answer of a positive reply, nor the SOA of a denial, is served more TTL than it had left. |
| `DnsCache.KeysAgreeIff` | src/dns_cache.rs:150-162 | Queries share a key if and only if they go to the same resolver and ask for the same name but for case, type and class. |
| `DnsCache.TtlIsExact` | src/dns_cache.rs:171-207 | A reply is cached for n seconds if and only if it is a cacheable answer or denial, n is at least 1, and n is the most that every part of it lasts, up to 300. |
| `DnsCache.LatestStoreIs` | src/dns_cache.rs:111-137 | The log's entry for a question is the latest cacheable store of that very question. |
| `DnsCache.AnswersStayWithinIff` | src/dns_cache.rs:95-101 | Answers inside a denial stay within their own TTLs if and only if the entry's computed TTL exceeds none of them. |
| `DnsCache.DenialCanOverserveAnswers` | src/dns_cache.rs:171-207 | A denial of an alias for which that fails. |
| `DnsCache.NothingLostWhileItFits` | src/dns_cache.rs:111-137 | While the keys stored fit, nothing is lost before it expires. |
| `DnsCache.HitsExactlyLikeTheLog` | src/dns_cache.rs:76-137 | While the keys stored fit, on a clock that does not run back, a lookup hits if and only if the latest cacheable reply of its resolver to its question was stored less than its TTL ago. |
| `IsolationRules.RenderAddressBindings` | src/isolation.rs:465-506 | The binding rules in order, then the range rules over the bound addresses. |
| `IsolationRules.RenderBindings` | src/isolation.rs:478-494 | One participant's rules; the gateway's MAC is not held to its address. |
| `IsolationRules.RenderPairs` | src/isolation.rs:585-607 | Every ordered pair of participants with different addresses. |
| `IsolationRules.RenderAllowances` | src/isolation.rs:626-642 | The distinct allowance rules, in some order. |
| `IsolationRules.RenderBridgePolicy` | src/isolation.rs:563-665 | The whole chain in first-match order, and the effective mode. |
| `IsolationMeaning.RequestedEnforcementMeans` | src/isolation.rs:563-665 | Asked to enforce, the compiled list drops a frame if and only if it is spoofed or the policy is complete and the frame runs between participants, inside the subnet or between IPv6 peers without being tracked, gateway-to-broadcast, allowed or essential ICMPv6; an incomplete policy drops spoofed frames only. |
| `IsolationMeaning.BindingsCatchSpoofed` | src/isolation.rs:465-506 | The binding rules catch exactly the frames whose MAC and source address contradict the bindings or the bound range. |
| `IsolationMeaning.ChainMeaning` | src/isolation.rs:563-665 | First-match evaluation of the compiled list equals the declarative policy, for every frame, mode and allowance order. |
| `IsolationMeaning.EnforceIsExact` | src/isolation.rs:563-665 | For participants inside the subnet an IPv4 frame passes if and only if it is not spoofed and is tracked, DNATed, gateway-to-broadcast, allowed, or has an end outside the subnet. |
| `IsolationMeaning.AuditDropsOnlySpoofed` | src/isolation.rs:563-671 | Asked to audit, exactly the spoofed frames are dropped; asked for nothing, none, whether or not the policy is complete. |
| `IsolationMeaning.Ipv6PeersAreIsolated` | src/isolation.rs:643-659 | In enforce an IPv6 frame between peers passes only if tracked or essential ICMPv6. |
| `IsolationMeaning.PassingFramesAreBound` | src/isolation.rs:465-506 | With a bound range, in audit as in enforce, a passing frame from the range carries the MAC bound to its source, so an unbound source fails closed; a bound MAC carries only its address. |
| `IsolationMeaning.ListingOrderIsIrrelevant` | src/isolation.rs:311-315 | Sorting participants or allowance rules changes no verdict. |
| `Labels.OctetsOfMacText` | src/isolation.rs:439-458 | The canonical MAC text reads back as its octets. |
| `Labels.NormalFormsIdentify` | src/isolation.rs:439-458 | Two spellings normalise alike exactly when they name the same octets; normal forms are fixed points. |
| `Labels.AllowListRoundTrip` | src/isolation.rs:508-541 | Every list of well-formed allowances has a label that parses to exactly that list. |
| `Labels.ParsedEntriesAreValid` | src/isolation.rs:508-541 | Whatever parses names a valid identity and a port from 1 to 65535. |
| `Labels.EntryParsesIff` | src/isolation.rs:508-541 | An entry parses if and only if it reads identity, colon, port, slash, tcp or udp, the identity valid and the port from 1 to 65535; and then to just those. |
| `Labels.EntriesParseIff` | src/isolation.rs:508-541 | A list parses if and only if each trimmed entry does, to their results in order. |
| `Labels.AcceptListRoundTrip` | src/isolation.rs:205-234 | Every list of identities has a label that accepts exactly those. |
| `PolicyCompiler.CountClaims` | src/isolation.rs:400-411 | The counters hold how many pods make each claim. |
| `PolicyCompiler.ScreenKubernetesCandidates` | src/isolation.rs:358-435 | Exactly the pods without conflict are kept, after every Docker candidate; each rejection is one the rules name. |
| `PolicyCompiler.CollectIdentities` | src/isolation.rs:146-171 | Identities are indexed; missing, invalid and duplicated ones become issues, and no others. |
| `PolicyCompiler.CollectClaims` | src/isolation.rs:173-196 | Addresses are counted and MACs collected; shared ones become issues, and no others. |
| `PolicyCompiler.CollectAccepts` | src/isolation.rs:205-234 | What each uniquely named candidate accepts; malformed entries are issues on Docker and rejections on pods. |
| `PolicyCompiler.ResolveAllowances` | src/isolation.rs:236-281 | The allowances, problems and refusals of one candidate, exactly. |
| `PolicyCompiler.BuildPolicy` | src/isolation.rs:137-351 | Participants represent the kept candidates; issues and rejections are exactly those the declarative account names; eligible if and only if there is a participant and no issue; the reason agrees. |
| `PodsCannotInterfere.KeptPodClaimsAlone` | src/isolation.rs:358-435 | What a kept pod claims, no Docker candidate and no other kept pod claims. |
| `PodsCannotInterfere.PodsAddNoIssue` | src/isolation.rs:137-351 | With any pods, the issues are exactly the Docker candidates' own, less the unresolved Docker allowances a kept pod's identity now resolves. |
| `PodsCannotInterfere.EligibilityIsNeverLost` | src/isolation.rs:137-351 | An enforceable Docker policy stays enforceable whatever pods attach. |
| `PodsCannotInterfere.DockerKeepsItsRights` | src/isolation.rs:236-306 | Every Docker participant keeps its MAC binding and exactly its Docker-to-Docker allowances. |
| `PodsCannotInterfere.AllowancesAreAccepted` | src/isolation.rs:205-281 | Every allowance leads to the one bearer of the identity, and a pod's is named in that bearer's accept list. |
| `PodsCannotInterfere.BindingIsOneToOne` | src/isolation.rs:282-291 | Bound participants pair addresses with MACs one to one. |
| `PolicyMeaning.UniqueIff` | src/isolation.rs:146-171 | An identity resolves if and only if it is valid and one candidate alone bears it, and then to that candidate. |
| `PolicyMeaning.AllowanceIff` | src/isolation.rs:236-281 | A candidate's allowances are exactly what its label lists: the bearer's address, and the port and protocol of the entry, for entries whose identity one candidate bears and that it may reach. |
| `PolicyMeaning.LabelLists` | src/isolation.rs:508-541 | A label written from a list of entries is that list. |
| `PolicyMeaning.FramesPassAsLabelled` | src/isolation.rs:236-281 | From labels to frames, for participants as `BuildPolicy` makes them: in enforce a frame between two of them that is not spoofed, tracked or the gateway's broadcast passes if and only if the sender's label lists the receiver's identity with the frame's port and protocol, and the receiver accepts the sender where that is asked for. |
| `PolicyMeaning.ConflictIff` | src/isolation.rs:358-399 | The reason a pod loses to the Docker candidates: no valid identity, else a shared address, else a shared MAC, else a shared identity, and none if and only if it overlaps with no Docker candidate. |
| `PolicyMeaning.PodIsKeptIff` | src/isolation.rs:358-435 | A pod is kept if and only if its identity is valid and it overlaps with no Docker candidate and no other pod of which that is so; every Docker candidate is kept. |
| `PolicyMeaning.RejectedIff` | src/isolation.rs:358-435 | Screening reports exactly the pods it turns away, each with its reason. |
| `PolicyMeaning.TurnedAwayIff` | src/isolation.rs:358-435 | A pod is turned away for some reason if and only if it is not kept. |
| `PolicyMeaning.NotAcceptedIff` | src/isolation.rs:236-281 | A refusal is reported if and only if a pod of that name lists an identity whose one bearer does not accept it. |
| `PolicyMeaning.MacIsBoundIff` | src/isolation.rs:282-291 | A MAC is bound to its candidate's address if and only if no other candidate has either. |
| `PolicyMeaning.EligibleIff` | src/isolation.rs:137-351 | A policy may be enforced if and only if there is a candidate, all have valid identities, no two overlap, and the Docker candidates' lists are well formed and resolve. |
| `Addresses.FirstHost` | src/isolation.rs:579-582 | The smallest address after the network's, or the network's own in a /31 or /32. |
| `GatewayFirewall.ForwardIsExact` | src/host.rs:217-227 | A packet is forwarded if and only if it leaks nothing and its flow is tracked or may be opened; counters decide nothing. |
| `GatewayFirewall.NothingLeaks` | src/host.rs:184-227 | Whatever connection tracking says, enrolled traffic to outside leaves only by the tunnel and outside traffic to it enters only by the tunnel, for both families. |
| `GatewayFirewall.RunRooted6` | src/host.rs:167-227 | Over any run from an empty table every tracked IPv6 flow was started by an enrolled source through the tunnel. |
| `GatewayFirewall.Ipv6FlowsStartInside` | src/host.rs:167-227 | IPv6 off: no IPv6 packet is ever forwarded; on: every forwarded one belongs to such a flow. |
| `GatewayFirewall.CountersAreExact` | src/host.rs:131-166 | Whatever becomes of a packet, it advances a client's download counter once if it came in by the tunnel for one of the client's addresses, its upload counter once if it leaves by the tunnel from one, and otherwise neither. |
| `HostRepair.Agent.ApplyHostPolicy` | src/bin/egressy-isolation-agent.rs:459-517 | The commands of the plan in order, stopping at the first failure that is not ignored; the host is where the trace has it. |
| `HostRepair.Agent.Reconcile` | src/bin/egressy-isolation-agent.rs:377-403 | Nothing is issued without drift; otherwise the plan of the observed drift. |
| `HostRepair.Agent.RepairTable` | src/bin/egressy-isolation-agent.rs:459-470 | A missing table is installed, a stale one replaced atomically. |
| `HostRepair.Agent.RepairRule4` | src/bin/egressy-isolation-agent.rs:471-486 | Delete ignored, then add. |
| `HostRepair.Agent.RepairRoutes4` | src/bin/egressy-isolation-agent.rs:487-491 | Three route replacements, unreachable first. |
| `HostRepair.Agent.RepairRoutes6` | src/bin/egressy-isolation-agent.rs:492-496 | The same for IPv6. |
| `HostRepair.Agent.RepairRule6` | src/bin/egressy-isolation-agent.rs:497-515 | Delete ignored, then add, after the routes. |
| `HostRepairSafety.RepairReaches` | src/bin/egressy-isolation-agent.rs:459-517 | Without failures the plan ends in the host with each drifted part replaced and nothing else changed. |
| `HostRepairSafety.ReconcileConverges` | src/bin/egressy-isolation-agent.rs:377-403 | From any host state, canonical subnets and no failure: one reconcile leaves the host as the policy asks, and the next issues no command. |
| `HostRepairSafety.CleanIffEnforced` | src/host_policy.rs:327-438 | The agent sees no drift if and only if the host is as the policy asks: table marked, rule of the right priority, source and table, subnet, gateway and last-resort routes, for each family that is routed. |
| `HostRepairSafety.MarkersAgreeIff` | src/host_policy.rs:234-246 | Two policies mark their tables alike if and only if they guard the same IPv6 subnet, or none. |
| `HostRepairSafety.PlanOrder` | src/bin/egressy-isolation-agent.rs:459-517 | Table, IPv4 rule, IPv4 routes, IPv6 routes, IPv6 rule, in that order. |
| `HostRepairSafety.KillSwitchFirst` | src/bin/egressy-isolation-agent.rs:459-470 | Whatever fails, a routing command is issued only with the current kill switch installed. |
| `HostRepairSafety.NewIpv6RuleFindsLastResort` | src/host_policy.rs:169-200 | Whatever fails, a new IPv6 rule finds an unreachable default in its table. |
| `HostRepairSafety.NewIpv4RuleFindsLastResortIff` | src/bin/egressy-isolation-agent.rs:471-491 | A new IPv4 rule finds one if and only if the host already had it, because the rule precedes the routes. |
| `HostRepairSafety.NewIpv4RuleCanFindNothing` | src/bin/egressy-isolation-agent.rs:471-491 | A host for which it does not. |
| `HostRepairSafety.UncanonicalNeverSettles` | src/host_policy.rs:343-363 | A subnet the host prints otherwise is reported missing after any repair. |
| `WireGuardProfile.ExtendUnique` | src/wireguard.rs:756-777 | The loop appends unless a value repeats or the limit of 128 is passed. |
| `WireGuardProfile.ParseProfile` | src/wireguard.rs:192-387 | The line loop and the closing checks compute `Parse`, errors with their field, line and kind included. |
| `WireGuardProfile.CountFullTunnels` | src/wireguard.rs:389-406 | How many peers route everything. |
| `WireGuardParsed.ParsedIsComplete` | src/wireguard.rs:192-296 | Whatever the text, a profile that parses has all that is demanded, within every limit, without duplicates, and printable. |
| `WireGuardAccepted.ForeignLineFails` | src/wireguard.rs:192-387 | A text with a line other than blank, comment, heading or a directive of the known names does not parse. |
| `WireGuardAccepted.HooksAreForeign` | src/wireguard.rs:693-713 | No hook, SaveConfig or Table is among those names, in whatever case. |
| `WireGuardAccepted.RepeatedDirectiveFails` | src/wireguard.rs:715-755 | A text that sets a single-valued directive twice in one section does not parse, whatever the values. |
| `WireGuardAccepted.SectionsMakeTheProfile` | src/wireguard.rs:205-251 | A text that parses has exactly one interface section and one peer section for each peer of the profile. |
| `WireGuardRender.RenderProfile` | src/wireguard.rs:470-515 | The appended text is the profile's lines. |
| `WireGuardLines.ReadsSource` | src/wireguard.rs:192-387 | The source lines of a complete profile lead the parser back to it. |
| `WireGuardSource.SourceKeepsLines` | src/wireguard.rs:517-528 | With a key that does not end in `Table = off`, the DNS line takes the table line's place. |
| `WireGuardSource.SourceOfBareTableKey` | src/wireguard.rs:517-528 | With such a key but neither addresses nor DNS nothing is lost either. |
| `WireGuardSource.SourceOfTableKey` | src/wireguard.rs:517-528 | Otherwise another line runs into the cut key and the table line stays. |
| `WireGuardSize.SourceFits` | src/wireguard.rs:517-528 | A rendered source is at most 256 KiB, whatever the profile. |
| `WireGuardRoundTrip.SurvivesIff` | src/wireguard.rs:192-296 | The rendered source parses back, up to endpoint family, if and only if the table line is found where it stands; otherwise it does not parse. |
| `WireGuardRoundTrip.ProfileRoundTrip` | src/wireguard.rs:192-528 | For every profile that parses: size, round trip under that exact condition, and identical text on rendering again. |
| `WireGuardRoundTrip.KeysWithoutSpacesSurvive` | src/wireguard.rs:192-528 | Keys without white space always meet the condition. |
| `WireGuardRoundTrip.TableKeyParses` | src/wireguard.rs:192-296 | A profile with a key ending in the table's text can be parsed; |
| `WireGuardRoundTrip.TableKeyIsLost` | src/wireguard.rs:517-528 | the text rendered from it cannot. |
| `WireGuardRoundTrip.RenderDetermines` | src/wireguard.rs:470-515 | Two complete profiles with the same wg-quick text agree on all but DNS and endpoint families. |
| `Tunnel.HotLeavesSettled` | src/wireguard.rs:646-691 | From the tunnel of a, the action chosen by diff(a, b) leaves the tunnel of b. |
| `Tunnel.AppliedSettlesIff` | src/profile_manager.rs:449-480 | From any tunnel that is up, each action leaves the profile's tunnel if and only if what it does not touch is already right: everything for none; the interface and no stray routes for a reload; addresses, MTU and no stray routes for a sync; nothing for a recycle. |
| `Tunnel.DifferenceSettles` | src/wireguard.rs:646-691 | The action of a difference to the profile in force always meets that condition. |
| `TunnelMeaning.KindIff` | src/wireguard.rs:646-691 | Between complete profiles: no change if and only if they render alike and agree on DNS; a reload if only DNS differs; a recycle if key, port, addresses, MTU or the number of peers differ; otherwise a sync, with routes if and only if some peer's ranges differ. |
| `TunnelMeaning.RendersAlikeIff` | src/wireguard.rs:470-515 | Two complete profiles render alike if and only if they differ at most in DNS and in how endpoints that read alike are classed. |
| `TunnelMeaning.SettledRoutesIff` | src/runtime.rs:2402-2464 | A settled tunnel routes exactly the profile's IPv4 DNS servers, the port-mapping gateway and, while DNS is served, the explicit IPv4 upstreams; IPv6 leads into it if and only if it is routed and the profile has an IPv6 address and a peer for all of IPv6. |
| `TunnelMeaning.LinkIff` | src/profile_manager.rs:449-480 | The interface of a settled tunnel tells profiles apart in everything but DNS and endpoint families. |
| `TunnelMeaning.UpstreamIff` | src/runtime.rs:2466-2495 | Queries go to the profile's first IPv4 server or to the first explicit upstream; a profile is refused if and only if DNS is served from the profile and it has no IPv4 server. |
| `Syncconf.RenderSyncconf` | src/wireguard.rs:584-620 | The appended text is the key, port and peer lines. |
| `Syncconf.SyncconfReadsBack` | src/wireguard.rs:584-620 | For every complete profile the text reads back as exactly its key, port and peers, and loading what it reads as is the sync. |
| `Tunnel.RecycleSettles` | src/profile_manager.rs:504-522 | A recycle settles the profile from any state. |
| `Tunnel.RoutesMove` | src/runtime.rs:2402-2435 | Reconciling leaves exactly the new profile's service routes. |
| `Tunnel.HotApplyRefinesRecycle` | src/profile_manager.rs:449-480 | From the tunnel of a, the action chosen by diff(a, b) leaves exactly the interface, peers, routes and IPv6 default that recycling to b would. |
| `Tunnel.HotApplyRoutes` | src/runtime.rs:2402-2464 | No obsolete DNS route is left and no capability route removed. |
| `ProfileManager.Manager.ReplaceRules` | src/runtime.rs:2241-2269 | Both rules are deleted first; each is there again exactly if the commands up to its own succeed. |
| `ProfileManager.Manager.ConfigureIpv4Routes` | src/runtime.rs:2241-2272 | Rules, last-resort route and tunnel default, each exactly as far as the commands succeed. |
| `ProfileManager.Manager.ConfigureIpv6Routes` | src/runtime.rs:2319-2400 | The same for IPv6, the unreachable default first; the tunnel default present exactly if the profile carries IPv6. |
| `ProfileManager.Manager.ConfigureGatewayRoutes` | src/runtime.rs:2227-2288 | Success, exactly if the interface is up and no command fails, configures exactly; a failure leaves exactly what the commands before it did, and keeps the interface, the service routes and the last-resort routes. |
| `ProfileManager.Manager.RemoveObsolete` | src/runtime.rs:2410-2433 | The loop removes exactly the previous DNS routes nothing needs; on failure still none that is needed. |
| `ProfileManager.Manager.ReconcileGatewayRoutes` | src/runtime.rs:2402-2435 | Success is `Reconciled`; capability routes survive failure too. |
| `ProfileManager.Manager.WireguardUp` | src/runtime.rs:2134-2145 | Success exactly where no interface was up and no command fails, and then exactly the profile's. |
| `ProfileManager.Manager.WireguardDown` | src/runtime.rs:2496-2502 | The interface and its routes go together, or nothing changes. |
| `ProfileManager.Manager.Recycle` | src/profile_manager.rs:504-507 | Success exactly if the old interface is gone and no later command fails, even if the ignored down failed. |
| `ProfileManager.Manager.RecycleAndReconcile` | src/profile_manager.rs:509-522 | Success means exactly the recycled kernel; in any case rules and routes of both families are exactly as the failing commands leave them. |
| `ProfileManager.Manager.Syncconf` | src/profile_manager.rs:482-502 | Key, port and peers become the file's. |
| `ProfileManager.Manager.ApplyCandidate` | src/profile_manager.rs:449-480 | Success performs the action of the classification exactly. |
| `ProfileManager.Manager.Restore` | src/profile_manager.rs:243-250 | Success means the previous profile is settled; in any case the interface, rules and routes are exactly as the failing commands leave them, and so is whether anything enters the tunnel. |
| `ProfileManager.Manager.Attempt` | src/profile_manager.rs:228-238 | Success leaves the candidate settled if and only if its action could settle it from the tunnel before. |
| `ProfileManager.Manager.RollBack` | src/profile_manager.rs:290-318 | The restore, and the previous DNS published again exactly if it succeeded after a failed attempt. |
| `ProfileManager.Manager.Transact` | src/profile_manager.rs:228-322 | Committed: candidate active, published, and settled under exactly that condition; rolled back: previous profile settled and still active; otherwise the previous profile stays active over an unfinished restore; last-resort routes always stay. |
| `ProfileManager.Manager.Apply` | src/profile_manager.rs:205-322 | Refused if and only if unmanaged, missing or incapable, and then nothing changed; otherwise the transaction of the difference. Failed without rollback, enrolled traffic is blocked if and only if the condition of `StaysBlocked` holds. |
| `ProfileManager.RulesStandIff` | src/runtime.rs:2241-2269 | A configuration leaves a family without the rule that sends its enrolled traffic to the tunnel's table if and only if it comes to that family's rules and one of the two cannot be added again. |
| `ProfileManager.BlockedIff` | src/profile_manager.rs:243-250 | After a restore nothing enters the tunnel if and only if: no new interface came up, and the old one went down or carried nothing; or one came up but not as far as its default route; or the second configuration lost the IPv4 rule and the profile carries no IPv6. |
| `ProfileManager.LeaveUnrouted` | src/profile_manager.rs:205-322 | An apply after which the previous interface is up without a route and without the IPv4 rule. |
| `ProfileManager.CommitWithoutRoutes` | src/profile_manager.rs:205-322 | A reachable commit that does not settle: a candidate that cannot come up, a restore that stops after the interface is up, and the previous profile applied again as unchanged is committed without any route. |
| `ProfileManager.FailureWithTraffic` | src/profile_manager.rs:287-318 | A failure reported as blocked that is not: the active profile applied again, no evidence in time, and a tunnel that cannot be taken down. |

## Left out

- Sockets, the DNS wire format, HTTP, event streams, storage, encryption, notifications, telemetry and the web interface: plumbing around libraries.
- Docker and Kubernetes discovery: candidates and clients are inputs.
- `derive_aggregate` (src/domain.rs:290-332), recovery, NAT-PMP, probes and the local zone: they would add only easy members.
- `mutate` in src/control.rs changes parts of the snapshot the model does not hold; it is only its sequence bump here.
- Text of rules and commands: rules are values with an evaluator; nftables and iproute2 syntax is not rendered.
- Counter values inside the bridge ruleset, and chains other than forward in the gateway ruleset.
- ForwardIsExact: connection tracking is taken to class a forwarded packet as established or related only with respect to flows forwarded before, of its own family.
- TotalsStayWithinTheCaught: says nothing of runs in which a replacement is added to a table that was denied; what becomes of the counters then is up to nftables. Its two bounds on the client's own traffic are exact over stretches in which the client stays (`ReportsOwnTrafficIff`) and sufficient over others (`OwnTrafficBoundsTotals`).
- ReportsFollowTheCounter: likewise, and a client that is moved starts a new stretch.
- CountedNamesAgreeIff: identifiers that agree in their first 64 characters share a kernel counter; the counters of the model keep them apart.
- BurstLeavesRoom: needs permits returned whole; slots handed back early on TCP fallback are outside it.
- BuildPolicy: the final sorting of participants, issues and rejections; `ListingOrderIsIrrelevant` shows that no verdict depends on it. Issues and rejections are values instead of sentences.
- RenderAddressBindings: MACs are taken as already normalised, which for a built policy they are (`NormalFormsIdentify`).
- ReconcileConverges: a clean drift says of the nftables table only that it carries the current marker, as the program does.
- ParseProfile: starts from decoded text, and an error carries its kind instead of a sentence.
- HotApplyRefinesRecycle: `wg syncconf` is taken as replacing key, port and peers by the file's; an MTU the profile leaves open, which wg-quick derives from the route to the endpoint, is not modelled.
- ConfigureGatewayRoutes: a delete whose failure the program ignores is taken to fail only when there is nothing to delete.
- Apply: revisions and their encrypted store are answers of the outside world; of the status only the lifecycle is kept, and of the published upstream the address.
- Structured editing of profiles (src/wireguard.rs:530-582) renders and parses again; nothing is claimed about it.
