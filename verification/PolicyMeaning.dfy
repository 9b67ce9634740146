/** What the compiled policy comes to, in terms of the candidates' own labels. */
module PolicyMeaning {
  import opened Basics
  import opened Addresses
  import opened Text
  import opened IsolationRules
  import opened IsolationMeaning
  import opened Labels
  import opened PolicyBuild
  import opened PolicyCompiler
  import opened PodsCannotInterfere

  // ----------------------------------------------------------------------------- claims

  /** Candidate `i` makes the claim and no other does. */
  ghost predicate Alone(cs: seq<Candidate>, k: Claim, i: nat) {
    i < |cs| && Makes(cs[i], k) && forall j | 0 <= j < |cs| && j != i :: !Makes(cs[j], k)
  }

  lemma {:induction false} AloneClaims(cs: seq<Candidate>, k: Claim, i: nat)
    requires Alone(cs, k, i)
    ensures Claims(cs, k) == 1
  {
    var n := |cs| - 1;
    if i == n {
      ClaimsPositive(cs[..n], k);
      forall c <- cs[..n] ensures !Makes(c, k) {}
    } else {
      assert !Makes(cs[n], k);
      AloneClaims(cs[..n], k, i);
    }
  }

  lemma ClaimedOnceIff(cs: seq<Candidate>, k: Claim)
    ensures Claims(cs, k) == 1 <==> exists i: nat :: Alone(cs, k, i)
  {
    ClaimsPositive(cs, k);
    if Claims(cs, k) == 1 {
      var c :| c in cs && Makes(c, k);
      var i: nat :| i < |cs| && cs[i] == c;
      forall j | 0 <= j < |cs| && j != i ensures !Makes(cs[j], k) {
        if Makes(cs[j], k) { OnlyHolder(cs, k, if i < j then i else j, if i < j then j else i); }
      }
      assert Alone(cs, k, i);
    }
    if i: nat :| Alone(cs, k, i) { AloneClaims(cs, k, i); }
  }

  lemma SharedIff(cs: seq<Candidate>, k: Claim)
    ensures Claims(cs, k) > 1 <==> exists i: nat, j: nat :: i < j < |cs| && Makes(cs[i], k) && Makes(cs[j], k)
  {
    ClaimsPositive(cs, k);
    if Claims(cs, k) > 1 {
      var c :| c in cs && Makes(c, k);
      var i: nat :| i < |cs| && cs[i] == c;
      if forall j | 0 <= j < |cs| && j != i :: !Makes(cs[j], k) { AloneClaims(cs, k, i); }
      var j: nat :| j < |cs| && j != i && Makes(cs[j], k);
      if j < i { assert j < i < |cs|; } else { assert i < j < |cs|; }
    }
    if i: nat, j: nat :| i < j < |cs| && Makes(cs[i], k) && Makes(cs[j], k) { OnlyHolder(cs, k, i, j); }
  }

  // ------------------------------------------------------------------- whom a label names

  /** Candidate `i` bears the identity, validly and alone. */
  ghost predicate Bears(cs: seq<Candidate>, i: nat, id: string) {
    && ValidIdentity(id) && i < |cs| && cs[i].isolationId == Some(id)
    && forall j | 0 <= j < |cs| && j != i :: cs[j].isolationId != Some(id)
  }

  lemma BearsIff(cs: seq<Candidate>, i: nat, id: string)
    ensures Bears(cs, i, id) <==> ValidIdentity(id) && Alone(cs, ClaimedIdentity(id), i)
  {
    if ValidIdentity(id) && i < |cs| {
      forall j | 0 <= j < |cs| ensures Makes(cs[j], ClaimedIdentity(id)) <==> cs[j].isolationId == Some(id) {}
    }
  }

  lemma UniqueIff(cs: seq<Candidate>, id: string)
    ensures Unique(cs, id) <==> exists i: nat :: Bears(cs, i, id)
    ensures forall i: nat | Bears(cs, i, id) :: Unique(cs, id) && Named(cs, id) == cs[i]
  {
    ClaimedOnceIff(cs, ClaimedIdentity(id));
    forall i: nat ensures Bears(cs, i, id) <==> ValidIdentity(id) && Alone(cs, ClaimedIdentity(id), i) {
      BearsIff(cs, i, id);
    }
    if Unique(cs, id) {
      var i: nat :| Alone(cs, ClaimedIdentity(id), i);
      assert Bears(cs, i, id);
    }
    forall i: nat | Bears(cs, i, id) ensures Unique(cs, id) && Named(cs, id) == cs[i] {
      var holder := Named(cs, id);
      var j: nat :| j < |cs| && cs[j] == holder;
      assert Makes(cs[j], ClaimedIdentity(id));
    }
  }

  /** The candidate may reach the one that bears the identity: Docker's always, pods' if they are accepted there. */
  ghost predicate MayReach(c: Candidate, bearer: Candidate) {
    || c.source == Docker
    || (c.isolationId.Some? && ValidIdentity(c.isolationId.value)
        && c.isolationId.value in AcceptEntries(bearer.accept))
  }

  /** Entry `spec` of the candidate's own list gives it candidate `i`, at this address, port and protocol. */
  ghost predicate Grants(cs: seq<Candidate>, c: Candidate, spec: AllowSpec, i: nat, to: Ipv4, port: nat,
                         protocol: Protocol)
  {
    && Parsed(c).Ok? && spec in Parsed(c).value
    && Bears(cs, i, spec.destinationId) && MayReach(c, cs[i])
    && to == cs[i].address && port == spec.port && protocol == spec.protocol
  }

  lemma ResolvesTo(cs: seq<Candidate>, c: Candidate, spec: AllowSpec, i: nat)
    requires Bears(cs, i, spec.destinationId)
    ensures Resolves(cs, c, spec) <==> MayReach(c, cs[i])
    ensures Unique(cs, spec.destinationId)
    ensures Resolved(cs, spec) == Allowance(spec.destinationId, cs[i].address, spec.port, spec.protocol)
  {
    UniqueIff(cs, spec.destinationId);
  }

  /**
   A candidate's resolved allowances are exactly what its label lists: the bearer's address, the port
   and the protocol of an entry, for entries whose identity one candidate bears and that it may reach.
   */
  lemma AllowanceIff(cs: seq<Candidate>, c: Candidate, a: Allowance)
    ensures a in Allowances(cs, c) <==>
            exists spec, i: nat :: Grants(cs, c, spec, i, a.destination, a.port, a.protocol)
                                   && spec.destinationId == a.destinationId
  {
    if a in Allowances(cs, c) {
      var spec :| spec in Parsed(c).value && Resolves(cs, c, spec) && a == Resolved(cs, spec);
      UniqueIff(cs, spec.destinationId);
      var i: nat :| Bears(cs, i, spec.destinationId);
      ResolvesTo(cs, c, spec, i);
      assert Grants(cs, c, spec, i, a.destination, a.port, a.protocol);
    }
    if spec, i: nat :| Grants(cs, c, spec, i, a.destination, a.port, a.protocol)
                       && spec.destinationId == a.destinationId {
      ResolvesTo(cs, c, spec, i);
    }
  }

  /** With the label listing these entries, they are what the candidate's list holds. */
  lemma LabelLists(c: Candidate, specs: seq<AllowSpec>)
    requires c.allow == Some(Join(SpecTexts(specs), ",")) && forall s <- specs :: ValidSpec(s)
    ensures Parsed(c) == Ok(specs)
  {
    AllowListRoundTrip(specs);
  }

  // ------------------------------------------------------------------------- end to end

  /** The participants are made of the candidates, one of each. */
  ghost predicate MadeOf(ps: seq<Participant>, cs: seq<Candidate>) {
    |ps| == |cs| && forall i | 0 <= i < |cs| :: Represents(ps[i], cs, cs[i])
  }

  /** Some candidate at the frame's source lists what the frame asks for, at the frame's destination. */
  ghost predicate Labelled(cs: seq<Candidate>, f: Frame) {
    f.payload.V4? && f.payload.transport.ToPort? &&
      exists c, spec, i: nat {:trigger Grants(cs, c, spec, i, f.payload.daddr, f.payload.transport.port,
                                              f.payload.transport.protocol)} ::
        c in cs && c.address == f.payload.saddr
        && Grants(cs, c, spec, i, f.payload.daddr, f.payload.transport.port, f.payload.transport.protocol)
  }

  lemma AllowedIffLabelled(ps: seq<Participant>, cs: seq<Candidate>, f: Frame)
    requires MadeOf(ps, cs)
    ensures Allowed(ps, f) <==> Labelled(cs, f)
  {
    if Allowed(ps, f) {
      var p, a :| p in ps && a in p.allowances && f.payload.saddr == p.address && f.payload.daddr == a.destination
                  && f.payload.transport == ToPort(a.protocol, a.port);
      var n: nat :| n < |ps| && ps[n] == p;
      assert Represents(ps[n], cs, cs[n]);
      AllowanceIff(cs, cs[n], a);
      var spec, i: nat :| Grants(cs, cs[n], spec, i, a.destination, a.port, a.protocol)
                          && spec.destinationId == a.destinationId;
      assert Grants(cs, cs[n], spec, i, f.payload.daddr, f.payload.transport.port, f.payload.transport.protocol);
    }
    if Labelled(cs, f) { LabelledIsAllowed(ps, cs, f); }
  }

  lemma LabelledIsAllowed(ps: seq<Participant>, cs: seq<Candidate>, f: Frame)
    requires MadeOf(ps, cs) && Labelled(cs, f)
    ensures Allowed(ps, f)
  {
    var to, port, protocol := f.payload.daddr, f.payload.transport.port, f.payload.transport.protocol;
    var c, spec, i: nat :| c in cs && c.address == f.payload.saddr && Grants(cs, c, spec, i, to, port, protocol);
    var n: nat :| n < |cs| && cs[n] == c;
    assert Represents(ps[n], cs, cs[n]);
    var a := Allowance(spec.destinationId, to, port, protocol);
    AllowanceIff(cs, c, a);
    assert a in Allowances(cs, c) && a in ps[n].allowances && ps[n] in ps;
  }

  /**
   From labels to frames: in enforce, a frame that is not spoofed, tracked or the gateway's broadcast
   passes between two participants exactly if the sender's label lists the receiver's identity with
   the frame's port and protocol, and the receiver accepts the sender where that is asked for.
   */
  lemma FramesPassAsLabelled(policy: Policy, cs: seq<Candidate>, order: seq<Rule>, f: Frame)
    requires policy.Valid() && ListsAllowances(order, policy.participants) && MadeOf(policy.participants, cs)
    requires BetweenParticipants(policy.participants, f)
    requires !Spoofed(policy, f) && !Tracked(f) && !GatewayBroadcast(policy, f)
    ensures Evaluate(Chain(policy, Enforce, order), f) == Accept <==> Labelled(cs, f)
  {
    ChainMeaning(policy, Enforce, order, f);
    AllowedIffLabelled(policy.participants, cs, f);
  }

  // ------------------------------------------------------------------------ whom is kept

  /** Two candidates lay claim to the same address, MAC or identity. */
  predicate Overlap(a: Candidate, b: Candidate) {
    || a.address == b.address
    || (MacOf(a).Some? && MacOf(a) == MacOf(b))
    || (a.isolationId.Some? && a.isolationId == b.isolationId)
  }

  /** Candidate `i` is a pod with a valid identity that overlaps with no Docker candidate. */
  ghost predicate Unchallenged(cs: seq<Candidate>, i: nat) {
    && i < |cs| && cs[i].source == Kubernetes
    && cs[i].isolationId.Some? && ValidIdentity(cs[i].isolationId.value)
    && forall d <- cs | d.source == Docker :: !Overlap(cs[i], d)
  }

  /** Why a pod loses to the Docker candidates: the first of these that applies, and nothing if none does. */
  lemma ConflictIff(pod: Candidate, docker: seq<Candidate>)
    ensures var conflict, named := DockerConflict(pod, docker),
                                   pod.isolationId.Some? && ValidIdentity(pod.isolationId.value);
            var address := exists d <- docker :: d.address == pod.address;
            var mac := exists d <- docker :: MacOf(pod).Some? && MacOf(d) == MacOf(pod);
            var identity := exists d <- docker :: d.isolationId == pod.isolationId;
            && (conflict == Some(NoValidIdentity) <==> !named)
            && (conflict == Some(ClaimsDockerAddress) <==> named && address)
            && (conflict == Some(ClaimsDockerMac) <==> named && !address && mac)
            && (conflict == Some(ClaimsDockerIdentity) <==> named && !address && !mac && identity)
            && (conflict.None? <==> named && forall d <- docker :: !Overlap(pod, d))
  {
    ClaimsPositive(docker, ClaimedAddress(pod.address));
    if MacOf(pod).Some? { ClaimsPositive(docker, ClaimedMac(MacOf(pod).value)); }
    if pod.isolationId.Some? { ClaimsPositive(docker, ClaimedIdentity(pod.isolationId.value)); }
    forall d <- docker ensures Makes(d, ClaimedAddress(pod.address)) <==> d.address == pod.address {}
    forall d <- docker | MacOf(pod).Some?
      ensures Makes(d, ClaimedMac(MacOf(pod).value)) <==> MacOf(d) == MacOf(pod)
    {
    }
    forall d <- docker | pod.isolationId.Some?
      ensures Makes(d, ClaimedIdentity(pod.isolationId.value)) <==> d.isolationId == pod.isolationId
    {
    }
  }

  lemma UnchallengedIff(cs: seq<Candidate>, i: nat)
    requires i < |cs| && cs[i].source == Kubernetes
    ensures Unchallenged(cs, i) <==> DockerConflict(cs[i], OfSource(cs, Docker)).None?
  {
    OfSourceIsOfSource(cs, Docker);
    ConflictIff(cs[i], OfSource(cs, Docker));
  }

  /** The unopposed pods of a prefix are the prefix's unchallenged candidates, in order. */
  ghost predicate Picks(at: seq<nat>, cs: seq<Candidate>, n: nat, picked: seq<Candidate>) {
    && |at| == |picked|
    && (forall k | 0 <= k < |at| :: at[k] < n <= |cs| && Unchallenged(cs, at[k]) && picked[k] == cs[at[k]])
    && (forall k, l | 0 <= k < l < |at| :: at[k] < at[l])
    && (forall i: nat | i < n && Unchallenged(cs, i) :: i in at)
  }

  function UnopposedIn(cs: seq<Candidate>, n: nat): seq<Candidate>
    requires n <= |cs|
  {
    Unopposed(OfSource(cs[..n], Kubernetes), OfSource(cs, Docker))
  }

  lemma UnopposedNext(cs: seq<Candidate>, n: nat)
    requires n < |cs|
    ensures UnopposedIn(cs, n + 1) == UnopposedIn(cs, n) + (if Unchallenged(cs, n) then [cs[n]] else [])
  {
    assert cs[..n + 1][..n] == cs[..n];
    var before := OfSource(cs[..n], Kubernetes);
    if cs[n].source == Kubernetes {
      UnchallengedIff(cs, n);
      assert OfSource(cs[..n + 1], Kubernetes) == before + [cs[n]];
      assert (before + [cs[n]])[..|before|] == before;
    } else {
      assert OfSource(cs[..n + 1], Kubernetes) == before;
    }
  }

  lemma PickNone(at: seq<nat>, cs: seq<Candidate>, n: nat, picked: seq<Candidate>)
    requires n < |cs| && Picks(at, cs, n, picked) && !Unchallenged(cs, n)
    ensures Picks(at, cs, n + 1, picked)
  {
  }

  lemma PickOne(at: seq<nat>, cs: seq<Candidate>, n: nat, picked: seq<Candidate>)
    requires n < |cs| && Picks(at, cs, n, picked) && Unchallenged(cs, n)
    ensures Picks(at + [n], cs, n + 1, picked + [cs[n]])
  {
    var more := at + [n];
    assert more[|at|] == n && forall k | 0 <= k < |at| :: more[k] == at[k];
    forall i: nat | i < n + 1 && Unchallenged(cs, i) ensures i in more {
      if i < n { assert i in at; }
    }
  }

  lemma {:induction false} PickUnopposed(cs: seq<Candidate>, n: nat) returns (at: seq<nat>)
    requires n <= |cs|
    ensures Picks(at, cs, n, UnopposedIn(cs, n))
  {
    if n == 0 {
      assert cs[..0] == [];
      return [];
    }
    at := PickUnopposed(cs, n - 1);
    UnopposedNext(cs, n - 1);
    if Unchallenged(cs, n - 1) {
      PickOne(at, cs, n - 1, UnopposedIn(cs, n - 1));
      at := at + [n - 1];
    } else {
      PickNone(at, cs, n - 1, UnopposedIn(cs, n - 1));
    }
  }

  lemma SharesIff(pods: seq<Candidate>, k: nat)
    requires k < |pods|
    ensures Shares(pods[k], pods) <==> exists l | 0 <= l < |pods| && l != k :: Overlap(pods[k], pods[l])
  {
    var pod := pods[k];
    SharedIff(pods, ClaimedAddress(pod.address));
    if MacOf(pod).Some? { SharedIff(pods, ClaimedMac(MacOf(pod).value)); }
    if pod.isolationId.Some? { SharedIff(pods, ClaimedIdentity(pod.isolationId.value)); }
    if Shares(pod, pods) {
      var claim := if Claims(pods, ClaimedAddress(pod.address)) > 1 then ClaimedAddress(pod.address)
                   else if MacOf(pod).Some? && Claims(pods, ClaimedMac(MacOf(pod).value)) > 1
                   then ClaimedMac(MacOf(pod).value) else ClaimedIdentity(pod.isolationId.value);
      var i: nat, j: nat :| i < j < |pods| && Makes(pods[i], claim) && Makes(pods[j], claim);
      assert Overlap(pod, pods[if i == k then j else i]);
    }
    if l :| 0 <= l < |pods| && l != k && Overlap(pod, pods[l]) {
      var i: nat, j: nat := if l < k then l else k, if l < k then k else l;
      if pod.address == pods[l].address { OnlyHolder(pods, ClaimedAddress(pod.address), i, j); }
      if MacOf(pod).Some? && MacOf(pod) == MacOf(pods[l]) { OnlyHolder(pods, ClaimedMac(MacOf(pod).value), i, j); }
      if pod.isolationId.Some? && pod.isolationId == pods[l].isolationId {
        OnlyHolder(pods, ClaimedIdentity(pod.isolationId.value), i, j);
      }
    }
  }

  lemma {:induction false} UnsharedIff(pods: seq<Candidate>, all: seq<Candidate>, c: Candidate)
    ensures c in Unshared(pods, all) <==> c in pods && !Shares(c, all)
  {
    if pods != [] {
      UnsharedIff(pods[..|pods| - 1], all, c);
      assert pods == pods[..|pods| - 1] + [pods[|pods| - 1]];
    }
  }

  /**
   A pod is kept exactly if its identity is valid and it overlaps with no Docker candidate and with no
   other pod of which that is so. Every Docker candidate is kept.
   */
  lemma PodIsKeptIff(cs: seq<Candidate>, i: nat)
    requires i < |cs| && cs[i].source == Kubernetes
    ensures cs[i] in Kept(cs) <==>
            Unchallenged(cs, i) && forall j: nat | j != i && Unchallenged(cs, j) :: !Overlap(cs[i], cs[j])
    ensures forall d <- cs | d.source == Docker :: d in Kept(cs)
  {
    OfSourceIsOfSource(cs, Docker);
    assert cs[..|cs|] == cs;
    var rest := UnopposedIn(cs, |cs|);
    var at := PickUnopposed(cs, |cs|);
    UnsharedIff(rest, rest, cs[i]);
    assert cs[i] in Kept(cs) <==> cs[i] in rest && !Shares(cs[i], rest) by {
      assert cs[i] !in OfSource(cs, Docker);
    }
    if cs[i] in rest {
      var l :| 0 <= l < |rest| && rest[l] == cs[i];
      UnchallengedIff(cs, i);
      UnchallengedIff(cs, at[l]);
    }
    if Unchallenged(cs, i) {
      var k :| 0 <= k < |at| && at[k] == i;
      SharesIff(rest, k);
      PickedOverlap(cs, at, rest, k);
    }
  }

  lemma PickedOverlap(cs: seq<Candidate>, at: seq<nat>, rest: seq<Candidate>, k: nat)
    requires Picks(at, cs, |cs|, rest) && k < |rest|
    ensures (exists l | 0 <= l < |rest| && l != k :: Overlap(rest[k], rest[l])) <==>
            exists j: nat | j != at[k] && Unchallenged(cs, j) :: Overlap(cs[at[k]], cs[j])
  {
    if l :| 0 <= l < |rest| && l != k && Overlap(rest[k], rest[l]) {
      assert at[l] != at[k] by { if l < k { assert at[l] < at[k]; } else { assert at[k] < at[l]; } }
      assert Unchallenged(cs, at[l]) && Overlap(cs[at[k]], cs[at[l]]);
    }
    if j: nat :| j != at[k] && Unchallenged(cs, j) && Overlap(cs[at[k]], cs[j]) {
      var l :| 0 <= l < |at| && at[l] == j;
      assert Overlap(rest[k], rest[l]);
    }
  }

  // -------------------------------------------------------------------------- rejections

  /** Candidate `i`, a pod of this name, is turned away for this reason. */
  ghost predicate TurnedAway(cs: seq<Candidate>, i: nat, name: string, why: PodProblem) {
    && i < |cs| && cs[i].source == Kubernetes && cs[i].name == name
    && if Unchallenged(cs, i)
       then why == SharesWithPod && exists j: nat | j != i && Unchallenged(cs, j) :: Overlap(cs[i], cs[j])
       else DockerConflict(cs[i], OfSource(cs, Docker)) == Some(why)
  }

  lemma TurnedAwayByDocker(cs: seq<Candidate>, r: Rejection)
    requires r.PodRejected?
    ensures LosesToDocker(OfSource(cs, Kubernetes), OfSource(cs, Docker), r) <==>
            exists i: nat :: TurnedAway(cs, i, r.name, r.why) && !Unchallenged(cs, i)
  {
    var docker := OfSource(cs, Docker);
    OfSourceIsOfSource(cs, Kubernetes);
    if LosesToDocker(OfSource(cs, Kubernetes), docker, r) {
      var p :| p in OfSource(cs, Kubernetes) && p.name == r.name && DockerConflict(p, docker) == Some(r.why);
      var i: nat :| i < |cs| && cs[i] == p;
      UnchallengedIff(cs, i);
      assert TurnedAway(cs, i, r.name, r.why);
    }
    if i: nat :| TurnedAway(cs, i, r.name, r.why) && !Unchallenged(cs, i) {
      assert cs[i] in cs && cs[i] in OfSource(cs, Kubernetes);
    }
  }

  lemma TurnedAwayByPod(cs: seq<Candidate>, r: Rejection)
    requires r.PodRejected?
    ensures var rest := Unopposed(OfSource(cs, Kubernetes), OfSource(cs, Docker));
            LosesToPod(rest, rest, r) <==> exists i: nat :: TurnedAway(cs, i, r.name, r.why) && Unchallenged(cs, i)
  {
    assert cs[..|cs|] == cs;
    var rest := UnopposedIn(cs, |cs|);
    var at := PickUnopposed(cs, |cs|);
    if LosesToPod(rest, rest, r) {
      var p :| p in rest && p.name == r.name && Shares(p, rest);
      var k: nat :| k < |rest| && rest[k] == p;
      SharesIff(rest, k);
      PickedOverlap(cs, at, rest, k);
      assert TurnedAway(cs, at[k], r.name, r.why);
    }
    if i: nat :| TurnedAway(cs, i, r.name, r.why) && Unchallenged(cs, i) {
      var k: nat :| k < |at| && at[k] == i;
      SharesIff(rest, k);
      PickedOverlap(cs, at, rest, k);
      assert rest[k] in rest && Shares(rest[k], rest);
    }
  }

  /** Screening reports exactly the pods it turns away, each with its reason. */
  lemma RejectedIff(cs: seq<Candidate>, r: Rejection)
    ensures ScreenRejects(cs, r) <==> r.PodRejected? && exists i: nat :: TurnedAway(cs, i, r.name, r.why)
  {
    if r.PodRejected? {
      TurnedAwayByDocker(cs, r);
      TurnedAwayByPod(cs, r);
    }
  }

  /** A pod is turned away for some reason exactly if it is not kept. */
  lemma TurnedAwayIff(cs: seq<Candidate>, i: nat)
    requires i < |cs| && cs[i].source == Kubernetes
    ensures cs[i] !in Kept(cs) <==> exists why :: TurnedAway(cs, i, cs[i].name, why)
  {
    PodIsKeptIff(cs, i);
    UnchallengedIff(cs, i);
    if Unchallenged(cs, i) {
      assert TurnedAway(cs, i, cs[i].name, SharesWithPod) <==>
             exists j: nat | j != i && Unchallenged(cs, j) :: Overlap(cs[i], cs[j]);
    } else {
      assert TurnedAway(cs, i, cs[i].name, DockerConflict(cs[i], OfSource(cs, Docker)).value);
    }
  }

  /** Pod `n` lists identity `id`, whose bearer does not accept it. */
  ghost predicate Snubbed(cs: seq<Candidate>, n: nat, id: string, i: nat) {
    && n < |cs| && cs[n].source == Kubernetes && Parsed(cs[n]).Ok?
    && (exists spec <- Parsed(cs[n]).value :: spec.destinationId == id)
    && Bears(cs, i, id) && !MayReach(cs[n], cs[i])
  }

  /** An allowance is reported as not accepted exactly if a pod of that name lists one that is not. */
  lemma NotAcceptedIff(cs: seq<Candidate>, name: string, id: string)
    ensures BuildRejects(cs, NotAccepted(name, id)) <==>
            exists n: nat, i: nat :: Snubbed(cs, n, id, i) && cs[n].name == name
  {
    UniqueIff(cs, id);
    if BuildRejects(cs, NotAccepted(name, id)) {
      var c :| c in cs && RefusalOf(cs, c, NotAccepted(name, id));
      var n: nat :| n < |cs| && cs[n] == c;
      var i: nat :| Bears(cs, i, id);
      assert Snubbed(cs, n, id, i);
    }
    if n: nat, i: nat :| Snubbed(cs, n, id, i) && cs[n].name == name {
      assert RefusalOf(cs, cs[n], NotAccepted(name, id));
    }
  }

  // --------------------------------------------------------------------- bindings, issues

  /** A candidate's MAC is bound to its address exactly if no other candidate has either. */
  lemma MacIsBoundIff(cs: seq<Candidate>, i: nat, m: Mac)
    requires i < |cs|
    ensures BoundMac(cs, cs[i]) == Some(m) <==>
            && MacOf(cs[i]) == Some(m)
            && forall j | 0 <= j < |cs| && j != i :: cs[j].address != cs[i].address && MacOf(cs[j]) != Some(m)
  {
    var address := ClaimedAddress(cs[i].address);
    ClaimedOnceIff(cs, address);
    if BoundMac(cs, cs[i]) == Some(m) {
      var k: nat :| Alone(cs, address, k);
      assert Makes(cs[i], address);
      forall j | 0 <= j < |cs| && j != i ensures cs[j].address != cs[i].address && MacOf(cs[j]) != Some(m) {
        assert !Makes(cs[j], address);
        if MacOf(cs[j]) == Some(m) {
          assert cs[i].address in MacAddresses(cs, m) && cs[j].address in MacAddresses(cs, m);
          Singleton(MacAddresses(cs, m), cs[i].address, cs[j].address);
        }
      }
    }
    if MacOf(cs[i]) == Some(m)
       && forall j | 0 <= j < |cs| && j != i :: cs[j].address != cs[i].address && MacOf(cs[j]) != Some(m) {
      assert Alone(cs, address, i);
      forall a <- MacAddresses(cs, m) ensures a == cs[i].address {
        var c :| c in cs && MacOf(c) == Some(m) && c.address == a;
        var j :| 0 <= j < |cs| && cs[j] == c;
      }
      assert cs[i].address in MacAddresses(cs, m);
      assert MacAddresses(cs, m) == {cs[i].address};
    }
  }

  /** The candidate's own lists are in order: every entry names a bearer, and every accepted name is a name. */
  ghost predicate ListsAreGood(cs: seq<Candidate>, c: Candidate) {
    && Parsed(c).Ok? && (forall spec <- Parsed(c).value :: exists i: nat :: Bears(cs, i, spec.destinationId))
    && forall e <- AcceptEntries(c.accept) :: ValidIdentity(e)
  }

  ghost predicate AllNamed(cs: seq<Candidate>) {
    forall c <- cs :: c.isolationId.Some? && ValidIdentity(c.isolationId.value)
  }

  ghost predicate NoneOverlap(cs: seq<Candidate>) { forall i, j | 0 <= i < j < |cs| :: !Overlap(cs[i], cs[j]) }

  /**
   A policy may be enforced exactly if there is a candidate, all have valid identities, no two overlap
   in address, MAC or identity, and the lists of the Docker candidates are in order.
   */
  lemma EligibleIff(cs: seq<Candidate>)
    ensures Eligible(cs) <==>
            && cs != [] && AllNamed(cs) && NoneOverlap(cs) && forall c <- cs | c.source == Docker :: ListsAreGood(cs, c)
  {
    if Eligible(cs) {
      EligibleIsNamed(cs);
      EligibleIsApart(cs);
      forall c <- cs | c.source == Docker ensures ListsAreGood(cs, c) { EligibleIsListed(cs, c); }
    }
    if cs != [] && AllNamed(cs) && NoneOverlap(cs) && forall c <- cs | c.source == Docker :: ListsAreGood(cs, c) {
      forall issue ensures !HasIssue(cs, issue) { NoIssue(cs, issue); }
    }
  }

  lemma EligibleIsNamed(cs: seq<Candidate>)
    requires Eligible(cs)
    ensures AllNamed(cs)
  {
    forall c <- cs ensures c.isolationId.Some? && ValidIdentity(c.isolationId.value) {
      assert !HasIssue(cs, MissingIdentity(c.name)) && !IdentityIssueOf(c, MissingIdentity(c.name));
      assert !HasIssue(cs, InvalidIdentity(c.name)) && !IdentityIssueOf(c, InvalidIdentity(c.name));
    }
  }

  lemma NotShared(cs: seq<Candidate>, k: Claim, i: nat, j: nat)
    requires Claims(cs, k) <= 1 && i < j < |cs|
    ensures !(Makes(cs[i], k) && Makes(cs[j], k))
  {
    SharedIff(cs, k);
  }

  lemma MacsApart(cs: seq<Candidate>, m: Mac, i: nat, j: nat)
    requires i < j < |cs| && MacOf(cs[i]) == Some(m) && MacOf(cs[j]) == Some(m) && cs[i].address != cs[j].address
    ensures HasIssue(cs, SharedMac(m))
  {
    assert cs[i].address in MacAddresses(cs, m) && cs[j].address in MacAddresses(cs, m);
    SubsetSize({cs[i].address, cs[j].address}, MacAddresses(cs, m));
  }

  lemma EligibleIsApart(cs: seq<Candidate>)
    requires Eligible(cs) && AllNamed(cs)
    ensures NoneOverlap(cs)
  {
    forall i, j | 0 <= i < j < |cs| ensures !Overlap(cs[i], cs[j]) { PairIsApart(cs, i, j); }
  }

  lemma PairIsApart(cs: seq<Candidate>, i: nat, j: nat)
    requires Eligible(cs) && AllNamed(cs) && i < j < |cs|
    ensures !Overlap(cs[i], cs[j])
  {
    var id := cs[i].isolationId.value;
    assert !HasIssue(cs, SharedAddress(cs[i].address)) && !HasIssue(cs, DuplicateIdentity(id));
    NotShared(cs, ClaimedAddress(cs[i].address), i, j);
    NotShared(cs, ClaimedIdentity(id), i, j);
    if MacOf(cs[i]).Some? && MacOf(cs[i]) == MacOf(cs[j]) { MacsApart(cs, MacOf(cs[i]).value, i, j); }
  }

  lemma EligibleIsListed(cs: seq<Candidate>, c: Candidate)
    requires Eligible(cs) && AllNamed(cs) && NoneOverlap(cs) && c in cs && c.source == Docker
    ensures ListsAreGood(cs, c)
  {
    if Parsed(c).Err? {
      assert CausesProblem(cs, c, BadAllow(c.name, Parsed(c).error));
      assert HasIssue(cs, DockerProblem(BadAllow(c.name, Parsed(c).error)));
    }
    forall spec <- Parsed(c).value ensures exists i: nat :: Bears(cs, i, spec.destinationId) {
      UniqueIff(cs, spec.destinationId);
      if !Unique(cs, spec.destinationId) {
        assert CausesProblem(cs, c, Unresolved(c.name, spec.destinationId));
        assert HasIssue(cs, DockerProblem(Unresolved(c.name, spec.destinationId)));
      }
    }
    var n: nat :| n < |cs| && cs[n] == c;
    BearsItsOwn(cs, n);
    UniqueIff(cs, c.isolationId.value);
    forall e <- AcceptEntries(c.accept) ensures ValidIdentity(e) {
      if !ValidIdentity(e) {
        assert CausesProblem(cs, c, BadAccept(c.name, e));
        assert HasIssue(cs, DockerProblem(BadAccept(c.name, e)));
      }
    }
  }

  lemma BearsItsOwn(cs: seq<Candidate>, n: nat)
    requires AllNamed(cs) && NoneOverlap(cs) && n < |cs|
    ensures Bears(cs, n, cs[n].isolationId.value)
  {
    assert cs[n] in cs;
    forall j | 0 <= j < |cs| && j != n ensures cs[j].isolationId != cs[n].isolationId {
      assert cs[j] in cs;
      if j < n { assert !Overlap(cs[j], cs[n]); } else { assert !Overlap(cs[n], cs[j]); }
    }
  }

  lemma NoIssue(cs: seq<Candidate>, issue: Issue)
    requires AllNamed(cs) && NoneOverlap(cs) && forall c <- cs | c.source == Docker :: ListsAreGood(cs, c)
    ensures !HasIssue(cs, issue)
  {
    match issue
    case InvalidIdentity(_) =>
    case MissingIdentity(_) =>
    case DuplicateIdentity(id) => SharedIff(cs, ClaimedIdentity(id)); Unshareable(cs, ClaimedIdentity(id));
    case SharedAddress(a) => SharedIff(cs, ClaimedAddress(a)); Unshareable(cs, ClaimedAddress(a));
    case SharedMac(m) => OneMacOneAddress(cs, m);
    case DockerProblem(p) =>
      forall c <- cs | c.source == Docker ensures !CausesProblem(cs, c, p) { NoProblem(cs, c, p); }
  }

  lemma Unshareable(cs: seq<Candidate>, k: Claim)
    requires AllNamed(cs) && NoneOverlap(cs)
    ensures forall i: nat, j: nat | i < j < |cs| :: !(Makes(cs[i], k) && Makes(cs[j], k))
  {
    forall i: nat, j: nat | i < j < |cs| ensures !(Makes(cs[i], k) && Makes(cs[j], k)) {
      assert !Overlap(cs[i], cs[j]);
    }
  }

  lemma SameMacSameAddress(cs: seq<Candidate>, m: Mac, a: Ipv4, b: Ipv4)
    requires NoneOverlap(cs) && a in MacAddresses(cs, m) && b in MacAddresses(cs, m)
    ensures a == b
  {
    var c :| c in cs && MacOf(c) == Some(m) && c.address == a;
    var d :| d in cs && MacOf(d) == Some(m) && d.address == b;
    var i, j :| 0 <= i < |cs| && cs[i] == c && 0 <= j < |cs| && cs[j] == d;
  }

  lemma OneMacOneAddress(cs: seq<Candidate>, m: Mac)
    requires NoneOverlap(cs)
    ensures |MacAddresses(cs, m)| <= 1
  {
    if MacAddresses(cs, m) != {} {
      var a :| a in MacAddresses(cs, m);
      forall b <- MacAddresses(cs, m) ensures b == a { SameMacSameAddress(cs, m, a, b); }
      SubsetSize(MacAddresses(cs, m), {a});
    }
  }

  lemma NoProblem(cs: seq<Candidate>, c: Candidate, p: Problem)
    requires ListsAreGood(cs, c)
    ensures !CausesProblem(cs, c, p)
  {
    if p.Unresolved? { UniqueIff(cs, p.id); }
  }
}
