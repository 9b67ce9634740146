/** The loops of src/isolation.rs that build the policy, against the declarative account of it. */
module PolicyCompiler {
  import opened Basics
  import opened Addresses
  import opened Text
  import opened IsolationRules
  import opened Labels
  import opened PolicyBuild

  // -------------------------------------------------------------------------- screening

  ghost predicate LosesToDocker(cs: seq<Candidate>, docker: seq<Candidate>, r: Rejection) {
    r.PodRejected? && exists p <- cs :: p.name == r.name && DockerConflict(p, docker) == Some(r.why)
  }

  ghost predicate LosesToPod(cs: seq<Candidate>, all: seq<Candidate>, r: Rejection) {
    r.PodRejected? && r.why == SharesWithPod && exists p <- cs :: p.name == r.name && Shares(p, all)
  }

  ghost predicate ScreenRejects(cs: seq<Candidate>, r: Rejection) {
    var docker := OfSource(cs, Docker);
    var rest := Unopposed(OfSource(cs, Kubernetes), docker);
    LosesToDocker(OfSource(cs, Kubernetes), docker, r) || LosesToPod(rest, rest, r)
  }

  method Partition(cs: seq<Candidate>) returns (docker: seq<Candidate>, pods: seq<Candidate>)
    ensures docker == OfSource(cs, Docker) && pods == OfSource(cs, Kubernetes)
  {
    docker, pods := [], [];
    for i := 0 to |cs|
      invariant docker == OfSource(cs[..i], Docker) && pods == OfSource(cs[..i], Kubernetes)
    {
      assert cs[..i + 1][..i] == cs[..i];
      if cs[i].source == Docker { docker := docker + [cs[i]]; } else { pods := pods + [cs[i]]; }
    }
    assert cs[..|cs|] == cs;
  }

  method ConflictOf(pod: Candidate, addresses: set<Ipv4>, macs: set<Mac>, identities: set<string>,
                    ghost docker: seq<Candidate>)
    returns (problem: Option<PodProblem>)
    requires addresses == set c | c in docker :: c.address
    requires macs == set c | c in docker && MacOf(c).Some? :: MacOf(c).value
    requires identities == set c | c in docker && c.isolationId.Some? :: c.isolationId.value
    ensures problem == DockerConflict(pod, docker)
  {
    ConflictBySets(pod, docker, addresses, macs, identities);
    if pod.isolationId.None? || !ValidIdentity(pod.isolationId.value) { return Some(NoValidIdentity); }
    if pod.address in addresses { return Some(ClaimsDockerAddress); }
    if MacOf(pod).Some? && MacOf(pod).value in macs { return Some(ClaimsDockerMac); }
    if pod.isolationId.value in identities { return Some(ClaimsDockerIdentity); }
    return None;
  }

  method ScreenAgainstDocker(pods: seq<Candidate>, docker: seq<Candidate>)
    returns (rest: seq<Candidate>, rejected: set<Rejection>)
    ensures rest == Unopposed(pods, docker)
    ensures forall r :: r in rejected <==> LosesToDocker(pods, docker, r)
  {
    var addresses := set c | c in docker :: c.address;
    var macs := set c | c in docker && MacOf(c).Some? :: MacOf(c).value;
    var identities := set c | c in docker && c.isolationId.Some? :: c.isolationId.value;
    rest, rejected := [], {};
    for i := 0 to |pods|
      invariant rest == Unopposed(pods[..i], docker)
      invariant forall r :: r in rejected <==> LosesToDocker(pods[..i], docker, r)
    {
      var problem := ConflictOf(pods[i], addresses, macs, identities, docker);
      LosesNext(pods, docker, i);
      if problem.Some? {
        rejected := rejected + {PodRejected(pods[i].name, problem.value)};
      } else {
        rest := rest + [pods[i]];
      }
    }
    assert pods[..|pods|] == pods;
  }

  lemma LosesNext(pods: seq<Candidate>, other: seq<Candidate>, i: nat)
    requires i < |pods|
    ensures pods[..i + 1][..i] == pods[..i]
    ensures forall r :: LosesToDocker(pods[..i + 1], other, r) <==>
              LosesToDocker(pods[..i], other, r)
              || (r.PodRejected? && pods[i].name == r.name && DockerConflict(pods[i], other) == Some(r.why))
    ensures forall r :: LosesToPod(pods[..i + 1], other, r) <==>
              LosesToPod(pods[..i], other, r)
              || (r.PodRejected? && r.why == SharesWithPod && pods[i].name == r.name && Shares(pods[i], other))
  {
    assert pods[..i + 1] == pods[..i] + [pods[i]];
  }

  lemma ConflictBySets(pod: Candidate, docker: seq<Candidate>, addresses: set<Ipv4>, macs: set<Mac>,
                       identities: set<string>)
    requires addresses == set c | c in docker :: c.address
    requires macs == set c | c in docker && MacOf(c).Some? :: MacOf(c).value
    requires identities == set c | c in docker && c.isolationId.Some? :: c.isolationId.value
    ensures pod.address in addresses <==> Claims(docker, ClaimedAddress(pod.address)) > 0
    ensures MacOf(pod).Some? ==> (MacOf(pod).value in macs <==> Claims(docker, ClaimedMac(MacOf(pod).value)) > 0)
    ensures pod.isolationId.Some? ==>
              (pod.isolationId.value in identities <==> Claims(docker, ClaimedIdentity(pod.isolationId.value)) > 0)
  {
    ClaimsPositive(docker, ClaimedAddress(pod.address));
    if MacOf(pod).Some? { ClaimsPositive(docker, ClaimedMac(MacOf(pod).value)); }
    if pod.isolationId.Some? { ClaimsPositive(docker, ClaimedIdentity(pod.isolationId.value)); }
  }

  function Tallied(counts: map<Claim, nat>, k: Claim): nat { if k in counts then counts[k] else 0 }

  function Bumped(counts: map<Claim, nat>, k: Claim): map<Claim, nat> { counts[k := Tallied(counts, k) + 1] }

  /** The three claim counters of the source, kept in one map keyed by the kind of claim. */
  method CountClaims(cs: seq<Candidate>) returns (counts: map<Claim, nat>)
    ensures forall k :: Tallied(counts, k) == Claims(cs, k)
  {
    counts := map[];
    for i := 0 to |cs|
      invariant forall k :: Tallied(counts, k) == Claims(cs[..i], k)
    {
      assert cs[..i + 1][..i] == cs[..i];
      counts := Bumped(counts, ClaimedAddress(cs[i].address));
      if MacOf(cs[i]).Some? { counts := Bumped(counts, ClaimedMac(MacOf(cs[i]).value)); }
      if cs[i].isolationId.Some? { counts := Bumped(counts, ClaimedIdentity(cs[i].isolationId.value)); }
    }
    assert cs[..|cs|] == cs;
  }

  method ScreenAgainstPods(pods: seq<Candidate>) returns (rest: seq<Candidate>, rejected: set<Rejection>)
    ensures rest == Unshared(pods, pods)
    ensures forall r :: r in rejected <==> LosesToPod(pods, pods, r)
  {
    var counts := CountClaims(pods);
    rest, rejected := [], {};
    for i := 0 to |pods|
      invariant rest == Unshared(pods[..i], pods)
      invariant forall r :: r in rejected <==> LosesToPod(pods[..i], pods, r)
    {
      var pod := pods[i];
      var duplicated := Tallied(counts, ClaimedAddress(pod.address)) > 1
                        || (MacOf(pod).Some? && Tallied(counts, ClaimedMac(MacOf(pod).value)) > 1)
                        || (pod.isolationId.Some? && Tallied(counts, ClaimedIdentity(pod.isolationId.value)) > 1);
      LosesNext(pods, pods, i);
      assert duplicated <==> Shares(pod, pods);
      if duplicated {
        rejected := rejected + {PodRejected(pod.name, SharesWithPod)};
      } else {
        rest := rest + [pod];
      }
    }
    assert pods[..|pods|] == pods;
  }

  method ScreenKubernetesCandidates(cs: seq<Candidate>) returns (kept: seq<Candidate>, rejected: set<Rejection>)
    ensures kept == Kept(cs)
    ensures forall r :: r in rejected <==> ScreenRejects(cs, r)
  {
    var docker, pods := Partition(cs);
    if pods == [] { return docker, {}; }
    var unopposed, losers := ScreenAgainstDocker(pods, docker);
    var unshared, sharers := ScreenAgainstPods(unopposed);
    return docker + unshared, losers + sharers;
  }

  // -------------------------------------------------------------------------- resolution

  ghost predicate IndexesIdentities(identities: map<string, seq<nat>>, cs: seq<Candidate>) {
    && (forall id :: id in identities <==> ValidIdentity(id) && Claims(cs, ClaimedIdentity(id)) > 0)
    && (forall id <- identities ::
          && |identities[id]| == Claims(cs, ClaimedIdentity(id))
          && forall j | 0 <= j < |identities[id]| ::
               identities[id][j] < |cs| && cs[identities[id][j]].isolationId == Some(id))
  }

  method CollectIdentities(cs: seq<Candidate>) returns (identities: map<string, seq<nat>>, issues: set<Issue>)
    ensures IndexesIdentities(identities, cs)
    ensures forall i :: i in issues <==>
            (i.InvalidIdentity? || i.MissingIdentity? || i.DuplicateIdentity?) && HasIssue(cs, i)
  {
    identities, issues := map[], {};
    for n := 0 to |cs|
      invariant IndexesIdentities(identities, cs[..n])
      invariant forall i :: i in issues <==> HasIdentityIssue(cs[..n], i)
    {
      IdentitiesNext(identities, cs, n);
      IdentityIssuesNext(cs, n);
      var identity := cs[n].isolationId;
      if identity.None? {
        issues := issues + {MissingIdentity(cs[n].name)};
      } else if ValidIdentity(identity.value) {
        var known := if identity.value in identities then identities[identity.value] else [];
        identities := identities[identity.value := known + [n]];
      } else {
        issues := issues + {InvalidIdentity(cs[n].name)};
      }
    }
    assert cs[..|cs|] == cs;
    issues := issues + set id | id in identities && |identities[id]| > 1 :: DuplicateIdentity(id);
  }

  ghost predicate HasIdentityIssue(cs: seq<Candidate>, issue: Issue) { exists c <- cs :: IdentityIssueOf(c, issue) }

  lemma IdentityIssuesNext(cs: seq<Candidate>, n: nat)
    requires n < |cs|
    ensures forall i :: HasIdentityIssue(cs[..n + 1], i) <==> HasIdentityIssue(cs[..n], i) || IdentityIssueOf(cs[n], i)
  {
    assert cs[..n + 1] == cs[..n] + [cs[n]];
  }

  lemma IdentitiesNext(identities: map<string, seq<nat>>, cs: seq<Candidate>, n: nat)
    requires n < |cs| && IndexesIdentities(identities, cs[..n])
    ensures var identity := cs[n].isolationId;
            if identity.Some? && ValidIdentity(identity.value)
            then IndexesIdentities(
                   identities[identity.value :=
                                (if identity.value in identities then identities[identity.value] else []) + [n]],
                   cs[..n + 1])
            else IndexesIdentities(identities, cs[..n + 1])
  {
    assert cs[..n + 1][..n] == cs[..n];
    assert forall id :: Claims(cs[..n + 1], ClaimedIdentity(id))
                        == Claims(cs[..n], ClaimedIdentity(id)) + if cs[n].isolationId == Some(id) then 1 else 0;
    assert forall x | 0 <= x < n :: cs[..n][x] == cs[..n + 1][x];
  }

  function AddressTally(claims: map<Ipv4, nat>, a: Ipv4): nat { if a in claims then claims[a] else 0 }

  function MacTally(claims: map<Mac, set<Ipv4>>, m: Mac): set<Ipv4> { if m in claims then claims[m] else {} }

  ghost predicate CountsAddresses(claims: map<Ipv4, nat>, cs: seq<Candidate>) {
    forall a: Ipv4 :: AddressTally(claims, a) == Claims(cs, ClaimedAddress(a))
  }

  ghost predicate CollectsMacs(claims: map<Mac, set<Ipv4>>, cs: seq<Candidate>) {
    forall m :: MacTally(claims, m) == MacAddresses(cs, m)
  }

  method CollectClaims(cs: seq<Candidate>)
    returns (addresses: map<Ipv4, nat>, macs: map<Mac, set<Ipv4>>, issues: set<Issue>)
    ensures CountsAddresses(addresses, cs) && CollectsMacs(macs, cs)
    ensures forall i :: i in issues <==> (i.SharedAddress? || i.SharedMac?) && HasIssue(cs, i)
  {
    addresses, macs := map[], map[];
    for n := 0 to |cs|
      invariant CountsAddresses(addresses, cs[..n]) && CollectsMacs(macs, cs[..n])
    {
      AddressesNext(addresses, cs, n);
      MacsNext(macs, cs, n);
      var a := cs[n].address;
      addresses := addresses[a := AddressTally(addresses, a) + 1];
      var mac := MacOf(cs[n]);
      if mac.Some? { macs := macs[mac.value := MacTally(macs, mac.value) + {a}]; }
    }
    assert cs[..|cs|] == cs;
    issues := SharedClaims(addresses, macs);
    SharedClaimsAreIssues(addresses, macs, cs);
  }

  function SharedClaims(addresses: map<Ipv4, nat>, macs: map<Mac, set<Ipv4>>): set<Issue> {
    (set a | a in addresses && addresses[a] > 1 :: SharedAddress(a)) +
      (set m | m in macs && |macs[m]| > 1 :: SharedMac(m))
  }

  lemma SharedClaimsAreIssues(addresses: map<Ipv4, nat>, macs: map<Mac, set<Ipv4>>, cs: seq<Candidate>)
    requires CountsAddresses(addresses, cs) && CollectsMacs(macs, cs)
    ensures forall i :: i in SharedClaims(addresses, macs) <==> (i.SharedAddress? || i.SharedMac?) && HasIssue(cs, i)
  {
    forall i ensures i in SharedClaims(addresses, macs) <==> (i.SharedAddress? || i.SharedMac?) && HasIssue(cs, i) {
      if i.SharedAddress? { assert AddressTally(addresses, i.address) == Claims(cs, ClaimedAddress(i.address)); }
      if i.SharedMac? { assert MacTally(macs, i.mac) == MacAddresses(cs, i.mac); }
    }
  }

  lemma AddressesNext(claims: map<Ipv4, nat>, cs: seq<Candidate>, n: nat)
    requires n < |cs| && CountsAddresses(claims, cs[..n])
    ensures var a := cs[n].address; CountsAddresses(claims[a := AddressTally(claims, a) + 1], cs[..n + 1])
  {
    assert cs[..n + 1][..n] == cs[..n];
  }

  lemma MacAddressesNext(cs: seq<Candidate>, n: nat, m: Mac)
    requires n < |cs|
    ensures MacAddresses(cs[..n + 1], m)
            == MacAddresses(cs[..n], m) + if MacOf(cs[n]) == Some(m) then {cs[n].address} else {}
  {
    assert cs[..n + 1] == cs[..n] + [cs[n]];
  }

  lemma MacsNext(claims: map<Mac, set<Ipv4>>, cs: seq<Candidate>, n: nat)
    requires n < |cs| && CollectsMacs(claims, cs[..n])
    ensures MacOf(cs[n]).None? ==> CollectsMacs(claims, cs[..n + 1])
    ensures MacOf(cs[n]).Some? ==>
              var mac := MacOf(cs[n]).value;
              CollectsMacs(claims[mac := MacTally(claims, mac) + {cs[n].address}], cs[..n + 1])
  {
    var mac := MacOf(cs[n]);
    var after := if mac.None? then claims else claims[mac.value := MacTally(claims, mac.value) + {cs[n].address}];
    forall m ensures MacTally(after, m) == MacAddresses(cs[..n + 1], m) {
      MacAddressesNext(cs, n, m);
      assert MacTally(claims, m) == MacAddresses(cs[..n], m);
    }
  }

  /** The addresses of the uniquely identified candidates. */
  ghost predicate ResolvesNames(unique: map<string, Ipv4>, cs: seq<Candidate>) {
    forall id :: (id in unique <==> Unique(cs, id)) && (id in unique ==> unique[id] == Named(cs, id).address)
  }

  method ResolveNames(cs: seq<Candidate>, identities: map<string, seq<nat>>) returns (unique: map<string, Ipv4>)
    requires IndexesIdentities(identities, cs)
    ensures ResolvesNames(unique, cs)
  {
    unique := map id | id in identities && |identities[id]| == 1 :: cs[identities[id][0]].address;
    forall id | Unique(cs, id) ensures cs[identities[id][0]] == Named(cs, id) {
      TheBearer(cs, id, identities[id][0]);
    }
  }

  lemma TheBearer(cs: seq<Candidate>, id: string, x: nat)
    requires Unique(cs, id) && x < |cs| && cs[x].isolationId == Some(id)
    ensures cs[x] == Named(cs, id)
  {
    var k := ClaimedIdentity(id);
    var bearer := Holder(cs, k);
    var y :| 0 <= y < |cs| && cs[y] == bearer;
    assert Makes(cs[x], k) && Makes(bearer, k);
    if x < y { OnlyHolder(cs, k, x, y); } else if y < x { OnlyHolder(cs, k, y, x); }
  }

  method SortEntries(accept: Option<string>) returns (accepted: set<string>, bad: set<string>)
    ensures accepted == set e | e in AcceptEntries(accept) && ValidIdentity(e)
    ensures bad == set e | e in AcceptEntries(accept) && !ValidIdentity(e)
  {
    accepted, bad := {}, {};
    if accept.None? { return; }
    var parts := Split(accept.value, ',');
    for n := 0 to |parts|
      invariant forall e :: e in accepted <==>
                ValidIdentity(e) && e != "" && exists k | 0 <= k < n :: e == Trim(parts[k])
      invariant forall e :: e in bad <==> !ValidIdentity(e) && e != "" && exists k | 0 <= k < n :: e == Trim(parts[k])
    {
      var entry := Trim(parts[n]);
      if entry != "" {
        if ValidIdentity(entry) { accepted := accepted + {entry}; } else { bad := bad + {entry}; }
      }
    }
    assert forall e :: e in AcceptEntries(accept) <==> e != "" && exists k | 0 <= k < |parts| :: e == Trim(parts[k]);
  }

  predicate BadEntryOf(cs: seq<Candidate>, c: Candidate, p: Problem) { p.BadAccept? && CausesProblem(cs, c, p) }

  ghost predicate HasBadEntry(cs: seq<Candidate>, some: seq<Candidate>, source: CandidateSource, p: Problem) {
    exists c <- some :: c.source == source && BadEntryOf(cs, c, p)
  }

  lemma BadEntriesNext(cs: seq<Candidate>, n: nat, source: CandidateSource)
    requires n < |cs|
    ensures forall p :: HasBadEntry(cs, cs[..n + 1], source, p) <==>
              HasBadEntry(cs, cs[..n], source, p) || (cs[n].source == source && BadEntryOf(cs, cs[n], p))
  {
    assert cs[..n + 1] == cs[..n] + [cs[n]];
    forall p ensures HasBadEntry(cs, cs[..n + 1], source, p) <==>
                     HasBadEntry(cs, cs[..n], source, p) || (cs[n].source == source && BadEntryOf(cs, cs[n], p))
    {
      assert cs[n] in cs[..n + 1];
    }
  }

  function ValidEntries(c: Candidate): set<string> { set e | e in AcceptEntries(c.accept) && ValidIdentity(e) }

  /** What each uniquely identified candidate accepts, for the candidates among the first `n`. */
  ghost predicate KnowsAccepts(accepts: map<string, set<string>>, cs: seq<Candidate>, n: nat)
    requires n <= |cs|
  {
    && (forall id <- accepts :: Unique(cs, id) && accepts[id] == ValidEntries(Named(cs, id)))
    && (forall k | 0 <= k < n :: cs[k].isolationId.Some? && Unique(cs, cs[k].isolationId.value)
                                 ==> cs[k].isolationId.value in accepts)
  }

  method EntriesOf(ghost cs: seq<Candidate>, c: Candidate) returns (accepted: set<string>, problems: set<Problem>)
    requires c.isolationId.Some? && Unique(cs, c.isolationId.value)
    ensures accepted == ValidEntries(c)
    ensures forall p :: p in problems <==> BadEntryOf(cs, c, p)
  {
    var bad;
    accepted, bad := SortEntries(c.accept);
    problems := set e | e in bad :: BadAccept(c.name, e);
  }

  method CollectAccepts(cs: seq<Candidate>, unique: map<string, Ipv4>)
    returns (accepts: map<string, set<string>>, docker: set<Problem>, pods: set<Problem>)
    requires ResolvesNames(unique, cs)
    ensures KnowsAccepts(accepts, cs, |cs|)
    ensures forall p :: p in docker <==> HasBadEntry(cs, cs, Docker, p)
    ensures forall p :: p in pods <==> HasBadEntry(cs, cs, Kubernetes, p)
  {
    accepts, docker, pods := map[], {}, {};
    for n := 0 to |cs|
      invariant KnowsAccepts(accepts, cs, n)
      invariant forall p :: p in docker <==> HasBadEntry(cs, cs[..n], Docker, p)
      invariant forall p :: p in pods <==> HasBadEntry(cs, cs[..n], Kubernetes, p)
    {
      BadEntriesNext(cs, n, Docker);
      BadEntriesNext(cs, n, Kubernetes);
      var c := cs[n];
      if c.isolationId.Some? && c.isolationId.value in unique {
        TheBearer(cs, c.isolationId.value, n);
        var accepted, problems := EntriesOf(cs, c);
        if c.source == Docker { docker := docker + problems; } else { pods := pods + problems; }
        accepts := accepts[c.isolationId.value := accepted];
      }
    }
    assert cs[..|cs|] == cs;
  }

  // ------------------------------------------------------------------------- allowances

  predicate RefusedBy(cs: seq<Candidate>, c: Candidate, spec: AllowSpec) {
    c.source == Kubernetes && Unique(cs, spec.destinationId) && !AcceptedBy(c, Named(cs, spec.destinationId))
  }

  /** What the first `n` parsed entries of a candidate come to. */
  ghost predicate ResolvesEntries(cs: seq<Candidate>, c: Candidate, specs: seq<AllowSpec>,
                                  allowances: set<Allowance>, problems: set<Problem>, refused: set<Rejection>)
  {
    && (forall a :: a in allowances <==> exists spec <- specs :: Resolves(cs, c, spec) && a == Resolved(cs, spec))
    && (forall p :: p in problems <==>
          exists spec <- specs :: !Unique(cs, spec.destinationId) && p == Unresolved(c.name, spec.destinationId))
    && (forall r :: r in refused <==>
          exists spec <- specs :: RefusedBy(cs, c, spec) && r == NotAccepted(c.name, spec.destinationId))
  }

  lemma EntriesNext(cs: seq<Candidate>, c: Candidate, specs: seq<AllowSpec>, n: nat,
                    allowances: set<Allowance>, problems: set<Problem>, refused: set<Rejection>)
    requires n < |specs| && ResolvesEntries(cs, c, specs[..n], allowances, problems, refused)
    ensures var spec := specs[n];
            ResolvesEntries(cs, c, specs[..n + 1],
                            if Resolves(cs, c, spec) then allowances + {Resolved(cs, spec)} else allowances,
                            if Unique(cs, spec.destinationId) then problems
                            else problems + {Unresolved(c.name, spec.destinationId)},
                            if RefusedBy(cs, c, spec) then refused + {NotAccepted(c.name, spec.destinationId)}
                            else refused)
  {
    assert specs[..n + 1] == specs[..n] + [specs[n]];
  }

  method ResolveEntries(ghost cs: seq<Candidate>, c: Candidate, specs: seq<AllowSpec>,
                        unique: map<string, Ipv4>, accepts: map<string, set<string>>)
    returns (allowances: set<Allowance>, problems: set<Problem>, refused: set<Rejection>)
    requires ResolvesNames(unique, cs) && KnowsAccepts(accepts, cs, |cs|)
    ensures ResolvesEntries(cs, c, specs, allowances, problems, refused)
  {
    allowances, problems, refused := {}, {}, {};
    for n := 0 to |specs|
      invariant ResolvesEntries(cs, c, specs[..n], allowances, problems, refused)
    {
      EntriesNext(cs, c, specs, n, allowances, problems, refused);
      var spec := specs[n];
      if spec.destinationId !in unique {
        problems := problems + {Unresolved(c.name, spec.destinationId)};
        continue;
      }
      AcceptsKnown(accepts, cs, c, spec.destinationId);
      if c.source == Kubernetes {
        var accepted := c.isolationId.Some? && spec.destinationId in accepts &&
          c.isolationId.value in accepts[spec.destinationId];
        if !accepted {
          refused := refused + {NotAccepted(c.name, spec.destinationId)};
          continue;
        }
      }
      allowances := allowances + {Allowance(spec.destinationId, unique[spec.destinationId], spec.port, spec.protocol)};
    }
    assert specs[..|specs|] == specs;
  }

  lemma AcceptsKnown(accepts: map<string, set<string>>, cs: seq<Candidate>, c: Candidate, id: string)
    requires KnowsAccepts(accepts, cs, |cs|) && Unique(cs, id)
    ensures id in accepts
    ensures c.isolationId.Some? ==> (c.isolationId.value in accepts[id] <==> AcceptedBy(c, Named(cs, id)))
  {
    var bearer := Holder(cs, ClaimedIdentity(id));
    assert Makes(bearer, ClaimedIdentity(id));
    var k :| 0 <= k < |cs| && cs[k] == bearer;
  }

  predicate ListProblemOf(cs: seq<Candidate>, c: Candidate, p: Problem) { !p.BadAccept? && CausesProblem(cs, c, p) }

  predicate RefusalOf(cs: seq<Candidate>, c: Candidate, r: Rejection) {
    && r.NotAccepted? && r.name == c.name && Parsed(c).Ok?
    && exists spec <- Parsed(c).value :: spec.destinationId == r.id && RefusedBy(cs, c, spec)
  }

  method ResolveAllowances(ghost cs: seq<Candidate>, c: Candidate, unique: map<string, Ipv4>,
                           accepts: map<string, set<string>>)
    returns (allowances: set<Allowance>, problems: set<Problem>, refused: set<Rejection>)
    requires ResolvesNames(unique, cs) && KnowsAccepts(accepts, cs, |cs|)
    ensures allowances == Allowances(cs, c)
    ensures forall p :: p in problems <==> ListProblemOf(cs, c, p)
    ensures forall r :: r in refused <==> RefusalOf(cs, c, r)
  {
    allowances, problems, refused := {}, {}, {};
    if c.allow.Some? {
      var specs := ParseAllowList(c.allow.value);
      if specs.Err? {
        problems := {BadAllow(c.name, specs.error)};
      } else {
        allowances, problems, refused := ResolveEntries(cs, c, specs.value, unique, accepts);
      }
    }
  }

  method ListOf<T(==)>(elements: set<T>) returns (order: seq<T>)
    ensures forall x :: x in order <==> x in elements
    ensures forall i: nat, j: nat | i < j < |order| :: order[i] != order[j]
  {
    order := [];
    var rest := elements;
    while rest != {}
      invariant rest <= elements && forall x :: x in order <==> x in elements - rest
      invariant forall i: nat, j: nat | i < j < |order| :: order[i] != order[j]
      decreases |rest|
    {
      var x :| x in rest;
      assert x !in order;
      ghost var before := order;
      order := order + [x];
      assert forall y :: y in order <==> y in before || y == x;
      rest := rest - {x};
    }
  }

  // -------------------------------------------------------------------------- the policy

  datatype ReasonCode = PolicyComplete | NoParticipants | PolicyIncomplete

  datatype BuiltPolicy = BuiltPolicy(policy: Policy, reason: ReasonCode, issues: set<Issue>, rejected: set<Rejection>)

  ghost predicate HasListProblem(cs: seq<Candidate>, some: seq<Candidate>, source: CandidateSource, p: Problem) {
    exists c <- some :: c.source == source && ListProblemOf(cs, c, p)
  }

  ghost predicate HasRefusal(cs: seq<Candidate>, some: seq<Candidate>, r: Rejection) {
    exists c <- some :: RefusalOf(cs, c, r)
  }

  lemma ListProblemsNext(cs: seq<Candidate>, n: nat, source: CandidateSource)
    requires n < |cs|
    ensures forall p :: HasListProblem(cs, cs[..n + 1], source, p) <==>
              HasListProblem(cs, cs[..n], source, p) || (cs[n].source == source && ListProblemOf(cs, cs[n], p))
  {
    assert cs[..n + 1] == cs[..n] + [cs[n]];
    forall p ensures HasListProblem(cs, cs[..n + 1], source, p) <==>
                     HasListProblem(cs, cs[..n], source, p) || (cs[n].source == source && ListProblemOf(cs, cs[n], p))
    {
      assert cs[n] in cs[..n + 1];
    }
  }

  lemma RefusalsNext(cs: seq<Candidate>, n: nat)
    requires n < |cs|
    ensures forall r :: HasRefusal(cs, cs[..n + 1], r) <==> HasRefusal(cs, cs[..n], r) || RefusalOf(cs, cs[n], r)
  {
    assert cs[..n + 1] == cs[..n] + [cs[n]];
    forall r ensures HasRefusal(cs, cs[..n + 1], r) <==> HasRefusal(cs, cs[..n], r) || RefusalOf(cs, cs[n], r) {
      assert cs[n] in cs[..n + 1];
    }
  }

  ghost predicate BuildRejects(cs: seq<Candidate>, r: Rejection) {
    (r.NotAccepted? && HasRefusal(cs, cs, r)) || (r.PodsProblem? && HasProblem(cs, Kubernetes, r.problem))
  }

  method CollectParticipants(cs: seq<Candidate>, unique: map<string, Ipv4>, accepts: map<string, set<string>>,
                             addresses: map<Ipv4, nat>, macs: map<Mac, set<Ipv4>>)
    returns (participants: seq<Participant>, docker: set<Problem>, pods: set<Problem>, refused: set<Rejection>)
    requires ResolvesNames(unique, cs) && KnowsAccepts(accepts, cs, |cs|)
    requires CountsAddresses(addresses, cs) && CollectsMacs(macs, cs)
    ensures |participants| == |cs| && forall i | 0 <= i < |cs| :: Represents(participants[i], cs, cs[i])
    ensures forall p :: p in docker <==> HasListProblem(cs, cs, Docker, p)
    ensures forall p :: p in pods <==> HasListProblem(cs, cs, Kubernetes, p)
    ensures forall r :: r in refused <==> HasRefusal(cs, cs, r)
  {
    participants, docker, pods, refused := [], {}, {}, {};
    for n := 0 to |cs|
      invariant |participants| == n && forall i | 0 <= i < n :: Represents(participants[i], cs, cs[i])
      invariant forall p :: p in docker <==> HasListProblem(cs, cs[..n], Docker, p)
      invariant forall p :: p in pods <==> HasListProblem(cs, cs[..n], Kubernetes, p)
      invariant forall r :: r in refused <==> HasRefusal(cs, cs[..n], r)
    {
      ListProblemsNext(cs, n, Docker);
      ListProblemsNext(cs, n, Kubernetes);
      RefusalsNext(cs, n);
      var participant, problems, refusals := ParticipantOf(cs, cs[n], unique, accepts, addresses, macs);
      participants := participants + [participant];
      refused := refused + refusals;
      if cs[n].source == Docker { docker := docker + problems; } else { pods := pods + problems; }
    }
    assert cs[..|cs|] == cs;
  }

  method ParticipantOf(ghost cs: seq<Candidate>, c: Candidate, unique: map<string, Ipv4>,
                       accepts: map<string, set<string>>,
                       addresses: map<Ipv4, nat>, macs: map<Mac, set<Ipv4>>)
    returns (participant: Participant, problems: set<Problem>, refused: set<Rejection>)
    requires ResolvesNames(unique, cs) && KnowsAccepts(accepts, cs, |cs|)
    requires CountsAddresses(addresses, cs) && CollectsMacs(macs, cs)
    ensures Represents(participant, cs, c)
    ensures forall p :: p in problems <==> ListProblemOf(cs, c, p)
    ensures forall r :: r in refused <==> RefusalOf(cs, c, r)
  {
    var allowances;
    allowances, problems, refused := ResolveAllowances(cs, c, unique, accepts);
    var order := ListOf(allowances);
    var mac := MacOf(c);
    if mac.Some? && !(AddressTally(addresses, c.address) == 1 && |MacTally(macs, mac.value)| == 1) { mac := None; }
    var identity := c.isolationId;
    if identity.Some? && !ValidIdentity(identity.value) { identity := None; }
    participant := Participant(c.containerId, c.name, identity, c.address, order, mac);
  }

  /** The policy before its lists are sorted: participants follow the kept candidates. */
  method BuildPolicy(subnet: Ipv4Net, candidates: seq<Candidate>) returns (built: BuiltPolicy)
    ensures built.policy.subnet == subnet
    ensures |built.policy.participants| == |Kept(candidates)|
    ensures forall i | 0 <= i < |Kept(candidates)| ::
              Represents(built.policy.participants[i], Kept(candidates), Kept(candidates)[i])
    ensures forall issue :: issue in built.issues <==> HasIssue(Kept(candidates), issue)
    ensures forall r :: r in built.rejected <==> ScreenRejects(candidates, r) || BuildRejects(Kept(candidates), r)
    ensures built.policy.eligible <==> Eligible(Kept(candidates))
    ensures built.reason == if built.policy.eligible then PolicyComplete
                            else if Kept(candidates) == [] then NoParticipants else PolicyIncomplete
  {
    var cs, screened := ScreenKubernetesCandidates(candidates);
    var identities, identityIssues := CollectIdentities(cs);
    var addresses, macs, claimIssues := CollectClaims(cs);
    var unique := ResolveNames(cs, identities);
    var accepts, dockerEntries, podEntries := CollectAccepts(cs, unique);
    var participants, dockerLists, podLists, refused := CollectParticipants(cs, unique, accepts, addresses, macs);
    var issues := AllIssues(identityIssues, claimIssues, dockerEntries + dockerLists);
    var rejected := AllRejections(screened, refused, podEntries + podLists);
    ProblemsSplit(cs, Docker);
    ProblemsSplit(cs, Kubernetes);
    IssuesSplit(cs, identityIssues, claimIssues, dockerEntries + dockerLists);
    RejectionsSplit(candidates, screened, refused, podEntries + podLists);
    built := Assembled(subnet, participants, issues, rejected);
    EligibleByIssues(cs, issues);
  }

  function AllIssues(identities: set<Issue>, claims: set<Issue>, problems: set<Problem>): set<Issue> {
    identities + claims + set p | p in problems :: DockerProblem(p)
  }

  function AllRejections(screened: set<Rejection>, refused: set<Rejection>, problems: set<Problem>): set<Rejection> {
    screened + refused + set p | p in problems :: PodsProblem(p)
  }

  function Assembled(subnet: Ipv4Net, participants: seq<Participant>, issues: set<Issue>,
                     rejected: set<Rejection>): BuiltPolicy {
    var eligible := participants != [] && issues == {};
    BuiltPolicy(
      Policy(subnet, eligible, participants, None, None, None),
      if eligible then PolicyComplete else if participants == [] then NoParticipants else PolicyIncomplete,
      issues, rejected)
  }

  lemma EligibleByIssues(cs: seq<Candidate>, issues: set<Issue>)
    requires forall issue :: issue in issues <==> HasIssue(cs, issue)
    ensures cs != [] && issues == {} <==> Eligible(cs)
  {
  }

  lemma RejectionsSplit(candidates: seq<Candidate>, screened: set<Rejection>, refused: set<Rejection>,
                        problems: set<Problem>)
    requires forall r :: r in screened <==> ScreenRejects(candidates, r)
    requires forall r :: r in refused <==> HasRefusal(Kept(candidates), Kept(candidates), r)
    requires forall p :: p in problems <==> HasProblem(Kept(candidates), Kubernetes, p)
    ensures forall r :: r in AllRejections(screened, refused, problems) <==>
              ScreenRejects(candidates, r) || BuildRejects(Kept(candidates), r)
  {
  }

  lemma ProblemsSplit(cs: seq<Candidate>, source: CandidateSource)
    ensures forall p :: HasProblem(cs, source, p) <==>
            HasBadEntry(cs, cs, source, p) || HasListProblem(cs, cs, source, p)
  {
    forall p
      ensures HasProblem(cs, source, p) <==> HasBadEntry(cs, cs, source, p) || HasListProblem(cs, cs, source, p)
    {
      if HasProblem(cs, source, p) {
        var c :| c in cs && c.source == source && CausesProblem(cs, c, p);
        assert BadEntryOf(cs, c, p) || ListProblemOf(cs, c, p);
      }
    }
  }

  lemma IssuesSplit(cs: seq<Candidate>, identities: set<Issue>, claims: set<Issue>, problems: set<Problem>)
    requires forall i :: i in identities <==>
             (i.InvalidIdentity? || i.MissingIdentity? || i.DuplicateIdentity?) && HasIssue(cs, i)
    requires forall i :: i in claims <==> (i.SharedAddress? || i.SharedMac?) && HasIssue(cs, i)
    requires forall p :: p in problems <==> HasProblem(cs, Docker, p)
    ensures forall i :: i in AllIssues(identities, claims, problems) <==> HasIssue(cs, i)
  {
  }
}
