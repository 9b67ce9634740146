/**
 The enforcement coordinator of src/enforcement.rs. Its policy is what the three gateway tasks
 want; the kernel table is what is installed. Every kernel command may fail, so the two differ
 until an apply succeeds.
 */
module Enforcement {
  import opened Basics
  import opened Addresses

  type ClientId = string
  type UsageId = string

  /** Whether the gateway manages its firewall, and whether it routes IPv6. */
  datatype Config = Config(applyFirewall: bool, ipv6: bool)

  /** A rule sending a tunnel-side port to a client's address and port. */
  datatype Dnat = Dnat(tunnelPort: nat, address: Ipv4, port: nat)

  datatype DnatTarget = DnatTarget(containerId: ClientId, address: Ipv4, port: nat)

  /** Why a client is, or is not, eligible. */
  datatype ComplianceMessage =
    | Stated(text: string)
    | PortCollides(port: nat)
    | UsageCollides(usage: UsageId)
    | LeaseLimitReached(limit: nat)

  datatype Client = Client(
    containerId: ClientId,
    usageId: UsageId,
    address: Ipv4,
    ipv6: Option<Ipv6>,
    portForwardTarget: bool,
    targetPort: Option<nat>,
    compliant: bool,
    message: ComplianceMessage)

  /** One accounting figure per direction and unit. */
  datatype Quad<T> = Quad(downloadPackets: T, downloadedBytes: T, uploadPackets: T, uploadedBytes: T)

  datatype Metric = DownloadPackets | DownloadedBytes | UploadPackets | UploadedBytes

  function At<T>(q: Quad<T>, m: Metric): T {
    match m
    case DownloadPackets => q.downloadPackets
    case DownloadedBytes => q.downloadedBytes
    case UploadPackets => q.uploadPackets
    case UploadedBytes => q.uploadedBytes
  }

  const NONE: Quad<nat> := Quad(0, 0, 0, 0)

  /** A total that survives kernel resets, and the raw value it was last brought up to. */
  datatype Accumulator = Accumulator(total: nat, lastRaw: nat) {
    function Observe(raw: nat): Accumulator {
      var delta := if raw >= lastRaw then raw - lastRaw else raw;
      Accumulator(Min(total + delta, U64_MAX), raw)
    }

    function Seeded(): Accumulator { Accumulator(total, total) }
  }

  datatype Counters = Counters(address: Ipv4, ipv6: Option<Ipv6>, figures: Quad<Accumulator>) {
    function Totals(): Quad<nat> {
      Quad(figures.downloadPackets.total, figures.downloadedBytes.total,
           figures.uploadPackets.total, figures.uploadedBytes.total)
    }

    function Observe(raw: Quad<nat>): Counters {
      this.(figures := Quad(figures.downloadPackets.Observe(raw.downloadPackets),
                            figures.downloadedBytes.Observe(raw.downloadedBytes),
                            figures.uploadPackets.Observe(raw.uploadPackets),
                            figures.uploadedBytes.Observe(raw.uploadedBytes)))
    }

    function Seeded(): Counters {
      this.(figures := Quad(figures.downloadPackets.Seeded(), figures.downloadedBytes.Seeded(),
                            figures.uploadPackets.Seeded(), figures.uploadedBytes.Seeded()))
    }
  }

  function NewCounters(address: Ipv4): Counters {
    var zero := Accumulator(0, 0);
    Counters(address, None, Quad(zero, zero, zero, zero))
  }

  datatype Policy = Policy(
    allowed: bool,
    targets: map<UsageId, DnatTarget>,
    desired: map<UsageId, Dnat>,
    applied: map<UsageId, Dnat>,
    clients: map<ClientId, Counters>)

  const EmptyPolicy := Policy(false, map[], map[], map[], map[])

  /** The address a packet has at the client's end. */
  datatype Ip = V4(four: Ipv4) | V6(six: Ipv6)

  /** A named counter: the addresses its rules match, and what it has come to. */
  datatype Meter = Meter(addresses: set<Ip>, raw: Quad<nat>)

  /** The owned nftables table: its DNAT rules and its named client counters. */
  datatype Table = Table(dnat: set<Dnat>, counters: map<ClientId, Meter>)

  /** Something crossing the tunnel, from or to an address that `owner` uses at the time. */
  datatype Packet = Packet(owner: ClientId, ip: Ip, amount: Quad<nat>)

  type Traffic = seq<Packet>

  /**
   How asking for the table turns out: not at all, truthfully, or with a failing exit status, which
   reads as "no table" whether or not there is one.
   */
  datatype Listing = Unanswered | Truthful | Denied

  /**
   How one apply's commands turn out: both existence checks, the counter read, the replacement
   transaction, what passes between the read and the replacement, and what becomes of the counters
   when the replacement is sent to a table that is still there.
   */
  datatype Io = Io(
    listing: Listing, readOk: bool, relisting: Listing, replaceOk: bool, gap: Traffic, merged: map<ClientId, Meter>)

  /** Every command succeeds and nothing passes meanwhile. */
  const QUIET := Io(Truthful, true, Truthful, true, [], map[])

  /** What passed, and which addresses each client's counter matched then. */
  datatype Burst = Burst(standing: map<ClientId, set<Ip>>, traffic: Traffic)

  /**
   The coordinator's policy, the kernel table it acts on, the client listing last accepted, and
   everything that ever passed.
   */
  datatype World = World(policy: Policy, kernel: Option<Table>, known: seq<Client>, history: seq<Burst>)

  const Fresh := World(EmptyPolicy, None, [], [])

  // ---------------------------------------------------------------- kernel behaviour

  /** Which packets are meant: a client's own, those its counter matches, or those one of the two gets wrong. */
  datatype Share = Owned | Caught | Foreign | Missed

  predicate Belongs(p: Packet, share: Share, id: ClientId, ips: set<Ip>) {
    match share
    case Owned => p.owner == id
    case Caught => p.ip in ips
    case Foreign => p.ip in ips && p.owner != id
    case Missed => p.owner == id && p.ip !in ips
  }

  /** What those packets of the traffic come to. */
  function Sum(t: Traffic, share: Share, id: ClientId, ips: set<Ip>): Quad<nat> {
    if t == [] then NONE
    else
      var rest := Sum(t[..|t| - 1], share, id, ips);
      if Belongs(t[|t| - 1], share, id, ips) then Plus(rest, t[|t| - 1].amount) else rest
  }

  /** A 64-bit counter wraps around. */
  function Wrapped(n: nat): (r: nat)
    ensures r <= U64_MAX && r <= n && (n <= U64_MAX ==> r == n) && (n > U64_MAX ==> r <= n - U64_MAX - 1)
  {
    if n <= U64_MAX then n else Wrapped(n - U64_MAX - 1)
  }

  function Bumped(raw: Quad<nat>, more: Quad<nat>): Quad<nat> {
    Quad(Wrapped(raw.downloadPackets + more.downloadPackets), Wrapped(raw.downloadedBytes + more.downloadedBytes),
         Wrapped(raw.uploadPackets + more.uploadPackets), Wrapped(raw.uploadedBytes + more.uploadedBytes))
  }

  function Plus(a: Quad<nat>, b: Quad<nat>): Quad<nat> {
    Quad(a.downloadPackets + b.downloadPackets, a.downloadedBytes + b.downloadedBytes,
         a.uploadPackets + b.uploadPackets, a.uploadedBytes + b.uploadedBytes)
  }

  function Standing(kernel: Option<Table>): map<ClientId, set<Ip>> {
    if kernel.None? then map[] else map id | id in kernel.value.counters :: kernel.value.counters[id].addresses
  }

  function Advanced(table: Table, t: Traffic): Table {
    table.(counters := map id | id in table.counters ::
             var meter := table.counters[id];
             meter.(raw := Bumped(meter.raw, Sum(t, Caught, id, meter.addresses))))
  }

  /** Traffic reaches the 64-bit counters whose addresses it matches, whoever uses those, and the record. */
  function Carry(w: World, t: Traffic): World {
    w.(kernel := if w.kernel.None? then None else Some(Advanced(w.kernel.value, t)),
       history := w.history + [Burst(Standing(w.kernel), t)])
  }

  // ---------------------------------------------------------------- specification

  predicate Eligible(c: Client) { c.portForwardTarget && c.compliant && c.targetPort.Some? }

  function TargetOf(c: Client): DnatTarget
    requires Eligible(c)
  {
    DnatTarget(c.containerId, c.address, c.targetPort.value)
  }

  /** Collecting into a map: of two eligible clients with one usage ID, the later wins. */
  function SelectTargets(listing: seq<Client>): map<UsageId, DnatTarget> {
    if listing == [] then map[]
    else
      var c := listing[|listing| - 1];
      var rest := SelectTargets(listing[..|listing| - 1]);
      if Eligible(c) then rest[c.usageId := TargetOf(c)] else rest
  }

  function Find(listing: seq<Client>, id: ClientId): Option<Client> {
    if listing == [] then None
    else if listing[|listing| - 1].containerId == id then Some(listing[|listing| - 1])
    else Find(listing[..|listing| - 1], id)
  }

  predicate Countable(c: Client) {
    c.address != 0 && c.containerId != "" && forall ch <- c.containerId :: IsAlphanumeric(ch)
  }

  /** A client keeps its totals only while it keeps its IPv4 address. */
  function Synced(clients: map<ClientId, Counters>, listing: seq<Client>): map<ClientId, Counters> {
    Enrolled(Retained(clients, listing), listing)
  }

  function Retained(clients: map<ClientId, Counters>, listing: seq<Client>): map<ClientId, Counters> {
    map id | id in clients && Find(listing, id).Some? && Find(listing, id).value.address == clients[id].address
      :: clients[id]
  }

  function Enrolled(clients: map<ClientId, Counters>, listing: seq<Client>): map<ClientId, Counters> {
    if listing == [] then clients
    else
      var c := listing[|listing| - 1];
      var rest := Enrolled(clients, listing[..|listing| - 1]);
      if !Countable(c) then rest
      else
        var entry := if c.containerId in rest then rest[c.containerId] else NewCounters(c.address);
        rest[c.containerId := entry.(ipv6 := c.ipv6)]
  }

  function Sampled(p: Policy, table: Table): Policy {
    p.(clients := map id | id in p.clients ::
         if id in table.counters then p.clients[id].Observe(table.counters[id].raw) else p.clients[id])
  }

  /** Read the kernel counters; `None` when a command failed. */
  function ObserveKernel(config: Config, p: Policy, kernel: Option<Table>, io: Io): Option<Policy> {
    if !config.applyFirewall then Some(p)
    else if io.listing == Unanswered then None
    else if kernel.None? || io.listing == Denied then Some(p)
    else if !io.readOk then None
    else Some(Sampled(p, kernel.value))
  }

  /** The addresses a client's rules match. */
  function Matched(config: Config, c: Counters): set<Ip> {
    {V4(c.address)} + if config.ipv6 && c.ipv6.Some? then {V6(c.ipv6.value)} else {}
  }

  /** The table a replacement sends: the desired rules, counters seeded with the totals. */
  function Rendered(config: Config, p: Policy): Table {
    Table(p.desired.Values, map id | id in p.clients :: Meter(Matched(config, p.clients[id]), p.clients[id].Totals()))
  }

  /** What a completed replacement leaves: a table that was denied is not deleted first, so old rules stay. */
  function Replaced(config: Config, p: Policy, kernel: Option<Table>, io: Io): Table {
    var sent := Rendered(config, p);
    if kernel.None? || io.relisting != Denied then sent else Table(kernel.value.dnat + sent.dnat, io.merged)
  }

  function AppliedPolicy(p: Policy): Policy {
    p.(clients := map id | id in p.clients :: p.clients[id].Seeded(), applied := p.desired)
  }

  /** Whether an apply that starts from `kernel` reaches and completes its replacement. */
  predicate ReplacesKernel(config: Config, kernel: Option<Table>, io: Io) {
    && config.applyFirewall && io.listing != Unanswered
    && (kernel.Some? && io.listing == Truthful ==> io.readOk)
    && io.relisting != Unanswered && io.replaceOk
  }

  /** Whether it does so without deleting a table that is there. */
  predicate Merges(config: Config, kernel: Option<Table>, io: Io) {
    ReplacesKernel(config, kernel, io) && kernel.Some? && io.relisting == Denied
  }

  /** `apply_locked`: the second component is false when it returned an error. */
  function ApplyLocked(config: Config, w: World, io: Io): (World, bool) {
    if !config.applyFirewall then (w, true)
    else
      var observed := ObserveKernel(config, w.policy, w.kernel, io);
      if observed.None? then (w, false)
      else
        var w1 := Carry(w.(policy := observed.value), io.gap);
        if io.relisting == Unanswered || !io.replaceOk then (w1, false)
        else (w1.(policy := AppliedPolicy(w1.policy), kernel := Some(Replaced(config, w1.policy, w1.kernel, io))), true)
  }

  /** The DNAT rule the lease loop asks for: the tunnel-side port to the slot's target. */
  function TunnelDnat(internalPort: nat, target: DnatTarget): Dnat {
    Dnat(internalPort, target.address, target.port)
  }

  /** What `dnat_is_applied` answers. */
  predicate IsApplied(p: Policy, usage: UsageId, dnat: Dnat) { usage in p.applied && p.applied[usage] == dnat }

  predicate Accepts(p: Policy, usage: UsageId, target: DnatTarget) {
    p.allowed && usage in p.targets && p.targets[usage] == target
  }

  predicate SameTarget(a: map<UsageId, DnatTarget>, b: map<UsageId, DnatTarget>, u: UsageId) {
    (u in a <==> u in b) && (u in a ==> a[u] == b[u])
  }

  /** Retarget: entries whose target changed are forgotten. */
  function Retargeted(p: Policy, listing: seq<Client>): Policy {
    var targets := SelectTargets(listing);
    p.(desired := map u | u in p.desired && SameTarget(p.targets, targets, u) :: p.desired[u],
       targets := targets,
       clients := Synced(p.clients, listing))
  }

  // ------------------------------------------------------------------ imperative form

  method SelectDnatTargets(listing: seq<Client>) returns (targets: map<UsageId, DnatTarget>)
    ensures targets == SelectTargets(listing)
  {
    targets := map[];
    for i := 0 to |listing|
      invariant targets == SelectTargets(listing[..i])
    {
      assert listing[..i + 1][..i] == listing[..i];
      var c := listing[i];
      if c.portForwardTarget && c.compliant {
        match c.targetPort
        case None =>
        case Some(port) => targets := targets[c.usageId := DnatTarget(c.containerId, c.address, port)];
      }
    }
    assert listing[..|listing|] == listing;
  }

  class EnforcementCoordinator {
    const config: Config
    var allowed: bool
    var targets: map<UsageId, DnatTarget>
    var desired: map<UsageId, Dnat>
    var applied: map<UsageId, Dnat>
    var clients: map<ClientId, Counters>
    /** What the commands act on, and the history they are judged against. */
    var kernel: Option<Table>
    ghost var known: seq<Client>
    ghost var history: seq<Burst>

    ghost function Now(): World
      reads this
    {
      World(Policy(allowed, targets, desired, applied, clients), kernel, known, history)
    }

    constructor (config: Config)
      ensures Now() == Fresh && this.config == config
    {
      this.config := config;
      allowed, targets, desired, applied, clients := false, map[], map[], map[], map[];
      kernel, known, history := None, [], [];
    }

    method ObserveKernelLocked(io: Io) returns (ok: bool)
      modifies this`clients
      ensures var read := ObserveKernel(config, old(Now()).policy, old(kernel), io);
              && ok == read.Some?
              && Now() == if ok then old(Now()).(policy := read.value) else old(Now())
    {
      if !config.applyFirewall { return true; }
      if io.listing == Unanswered { return false; }
      if kernel.None? || io.listing == Denied { return true; }
      if !io.readOk { return false; }
      var read := kernel.value.counters;
      var pending := clients.Keys;
      while pending != {}
        invariant pending <= clients.Keys == old(clients).Keys
        invariant forall id <- clients ::
                    clients[id] == if id in pending || id !in read then old(clients)[id]
                                   else old(clients)[id].Observe(read[id].raw)
        decreases |pending|
      {
        var id :| id in pending;
        if id in read {
          clients := clients[id := clients[id].Observe(read[id].raw)];
        }
        pending := pending - {id};
      }
      assert clients == Sampled(old(Now()).policy, kernel.value).clients;
      return true;
    }

    method PassTraffic(gap: Traffic)
      modifies this`kernel, this`history
      ensures Now() == Carry(old(Now()), gap)
    {
      history := history + [Burst(Standing(kernel), gap)];
      if kernel.Some? { kernel := Some(Advanced(kernel.value, gap)); }
    }

    method SeedAll()
      modifies this`clients
      ensures clients == map id | id in old(clients) :: old(clients)[id].Seeded()
    {
      var pending := clients.Keys;
      while pending != {}
        invariant pending <= clients.Keys == old(clients).Keys
        invariant forall id <- clients ::
                    clients[id] == if id in pending then old(clients)[id] else old(clients)[id].Seeded()
        decreases |pending|
      {
        var id :| id in pending;
        clients := clients[id := clients[id].Seeded()];
        pending := pending - {id};
      }
    }

    method Apply(io: Io) returns (ok: bool)
      modifies this
      ensures (Now(), ok) == ApplyLocked(config, old(Now()), io)
    {
      if !config.applyFirewall { return true; }
      ok := ObserveKernelLocked(io);
      if !ok { return; }
      PassTraffic(io.gap);
      if io.relisting == Unanswered || !io.replaceOk { return false; }
      var counters := map id | id in clients :: Meter(Matched(config, clients[id]), clients[id].Totals());
      var sent := Table(desired.Values, counters);
      if kernel.Some? && io.relisting == Denied {
        kernel := Some(Table(kernel.value.dnat + sent.dnat, io.merged));
      } else {
        kernel := Some(sent);
      }
      SeedAll();
      applied := desired;
    }

    method ReconcileBase(io: Io) returns (ok: bool)
      modifies this
      ensures Now() == Step(config, old(Now()), Event.ReconcileBase(io))
    {
      ok := Apply(io);
    }

    method EnableDnat()
      modifies this`allowed
      ensures Now() == Step(config, old(Now()), Enable)
    {
      allowed := true;
    }

    method DisableDnat(io: Io) returns (ok: bool)
      modifies this
      ensures Now() == Step(config, old(Now()), Disable(io))
    {
      allowed := false;
      desired := map[];
      ok := Apply(io);
    }

    /** True when the rule was taken and installed, false when it was refused; an error is `None`. */
    method SetDnatForTarget(usage: UsageId, internalPort: nat, target: DnatTarget, io: Io)
      returns (taken: Option<bool>)
      modifies this
      ensures Now() == Step(config, old(Now()), Set(usage, internalPort, target, io))
      ensures taken == Some(false) <==> !Accepts(old(Now()).policy, usage, target)
      ensures taken == Some(true) && config.applyFirewall ==>
                usage in applied && applied[usage] == TunnelDnat(internalPort, target)
    {
      if !allowed || usage !in targets || targets[usage] != target {
        return Some(false);
      }
      desired := desired[usage := TunnelDnat(internalPort, target)];
      var ok := Apply(io);
      return if ok then Some(true) else None;
    }

    method ClearDnatForUsage(usage: UsageId, io: Io) returns (ok: bool)
      modifies this
      ensures Now() == Step(config, old(Now()), Clear(usage, io))
    {
      desired := desired - {usage};
      ok := Apply(io);
    }

    /** Every client's totals after a fresh read of the kernel. */
    method SampleClientCounters(io: Io) returns (totals: Option<map<ClientId, Quad<nat>>>)
      modifies this`clients
      ensures Now() == Step(config, old(Now()), Sample(io))
      ensures totals.Some? ==> totals.value == map id | id in clients :: clients[id].Totals()
      ensures totals.None? ==> unchanged(this)
    {
      var ok := ObserveKernelLocked(io);
      return if ok then Some(map id | id in clients :: clients[id].Totals()) else None;
    }

    method DnatIsApplied(usage: UsageId, dnat: Dnat) returns (yes: bool)
      ensures yes <==> IsApplied(Now().policy, usage, dnat)
    {
      yes := usage in applied && applied[usage] == dnat;
    }

    method SyncClients(listing: seq<Client>)
      modifies this`clients
      ensures clients == Synced(old(clients), listing)
    {
      clients := Retained(clients, listing);
      for i := 0 to |listing|
        invariant clients == Enrolled(Retained(old(clients), listing), listing[..i])
      {
        assert listing[..i + 1][..i] == listing[..i];
        var c := listing[i];
        if c.address != 0 && c.containerId != "" && forall ch <- c.containerId :: IsAlphanumeric(ch) {
          var entry := if c.containerId in clients then clients[c.containerId] else NewCounters(c.address);
          clients := clients[c.containerId := entry.(ipv6 := c.ipv6)];
        }
      }
      assert listing[..|listing|] == listing;
    }

    method ReconcileClients(listing: seq<Client>, first: Io, io: Io) returns (ok: bool)
      modifies this
      ensures Now() == Step(config, old(Now()), Reconcile(listing, first, io))
    {
      ok := ObserveKernelLocked(first);
      if !ok { return; }
      PassTraffic(first.gap);
      var selected := SelectDnatTargets(listing);
      var previous := targets;
      desired := map u | u in desired && SameTarget(previous, selected, u) :: desired[u];
      targets := selected;
      SyncClients(listing);
      known := listing;
      ok := Apply(io);
    }
  }

  // ------------------------------------------------------------------------------ runs

  /** One call of one task, or something happening to the kernel in between. */
  datatype Event =
    | ReconcileBase(io: Io)
    | Enable
    | Disable(io: Io)
    | Set(usage: UsageId, internalPort: nat, target: DnatTarget, io: Io)
    | Clear(usage: UsageId, io: Io)
    | Reconcile(listing: seq<Client>, first: Io, io: Io)
    | Sample(io: Io)
    | Flow(traffic: Traffic)
    | ResetCounters(ids: set<ClientId>)
    | DeleteTable

  function Zeroed(table: Table, ids: set<ClientId>): Table {
    table.(counters := map id | id in table.counters ::
             if id in ids then table.counters[id].(raw := NONE) else table.counters[id])
  }

  /** The world just before an event's apply, or `None` when the event does not get that far. */
  function BeforeApply(config: Config, w: World, e: Event): Option<World> {
    var p := w.policy;
    match e
    case ReconcileBase(_) => Some(w)
    case Disable(_) => Some(w.(policy := p.(allowed := false, desired := map[])))
    case Set(usage, internalPort, target, _) =>
      if !Accepts(p, usage, target) then None
      else Some(w.(policy := p.(desired := p.desired[usage := TunnelDnat(internalPort, target)])))
    case Clear(usage, _) => Some(w.(policy := p.(desired := p.desired - {usage})))
    case Reconcile(listing, first, _) =>
      var read := ObserveKernel(config, p, w.kernel, first);
      if read.None? then None
      else
        var carried := Carry(w.(policy := read.value), first.gap);
        Some(carried.(policy := Retargeted(carried.policy, listing), known := listing))
    case Enable | Sample(_) | Flow(_) | ResetCounters(_) | DeleteTable => None
  }

  function Step(config: Config, w: World, e: Event): World {
    match e
    case ReconcileBase(_) | Disable(_) | Set(_, _, _, _) | Clear(_, _) | Reconcile(_, _, _) =>
      var before := BeforeApply(config, w, e);
      if before.None? then w else ApplyLocked(config, before.value, e.io).0
    case Enable => w.(policy := w.policy.(allowed := true))
    case Sample(io) =>
      var read := ObserveKernel(config, w.policy, w.kernel, io);
      if read.None? then w else w.(policy := read.value)
    case Flow(traffic) => Carry(w, traffic)
    case ResetCounters(ids) =>
      if w.kernel.None? then w else w.(kernel := Some(Zeroed(w.kernel.value, ids)))
    case DeleteTable => w.(kernel := None)
  }

  function Run(config: Config, w: World, events: seq<Event>): World {
    if events == [] then w
    else Step(config, Run(config, w, events[..|events| - 1]), events[|events| - 1])
  }

  /** The event replaced the kernel table. */
  predicate Installs(config: Config, w: World, e: Event) {
    var before := BeforeApply(config, w, e);
    before.Some? && ReplacesKernel(config, before.value.kernel, e.io)
  }

  lemma RunThree(config: Config, a: Event, b: Event, c: Event)
    ensures Run(config, Fresh, [a, b, c]) == Step(config, Step(config, Step(config, Fresh, a), b), c)
  {
    var one, two, three := [a], [a, b], [a, b, c];
    assert three[..2] == two && two[..1] == one && one[..0] == [];
    assert Run(config, Fresh, one) == Step(config, Fresh, a);
    assert Run(config, Fresh, two) == Step(config, Run(config, Fresh, one), b);
  }
}
