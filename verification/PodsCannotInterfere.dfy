/** What a pod's author can and cannot do to the isolation policy of the bridge. */
module PodsCannotInterfere {
  import opened Basics
  import opened IsolationRules
  import opened Labels
  import opened PolicyBuild

  // --------------------------------------------------------------------------- counting

  lemma {:induction false} UnsharedClaims(pods: seq<Candidate>, all: seq<Candidate>, k: Claim)
    ensures Claims(Unshared(pods, all), k) <= Claims(pods, k)
  {
    if pods != [] {
      var rest, last := pods[..|pods| - 1], pods[|pods| - 1];
      var kept := Unshared(rest, all);
      UnsharedClaims(rest, all, k);
      if Shares(last, all) {
        assert Unshared(pods, all) == kept;
      } else {
        assert Unshared(pods, all) == kept + [last];
        ClaimsConcat(kept, [last], k);
        ClaimsOne(last, k);
      }
    }
  }

  // ------------------------------------------------------------------------- separation

  lemma KeptPodsAreClean(cs: seq<Candidate>, pod: Candidate)
    requires pod in KeptPods(cs)
    ensures pod in cs && pod.source == Kubernetes && DockerConflict(pod, OfSource(cs, Docker)).None?
  {
    var pods, docker := OfSource(cs, Kubernetes), OfSource(cs, Docker);
    OfSourceIsOfSource(cs, Kubernetes);
    UnopposedAreFrom(pods, docker);
  }

  lemma UnopposedClaimsNothing(pod: Candidate, docker: seq<Candidate>, k: Claim)
    requires DockerConflict(pod, docker).None? && Makes(pod, k)
    ensures Claims(docker, k) == 0
  {
  }

  lemma UnsharedClaimsOnce(pods: seq<Candidate>, pod: Candidate, k: Claim)
    requires pod in Unshared(pods, pods) && Makes(pod, k)
    ensures Claims(Unshared(pods, pods), k) == 1
  {
    assert !Shares(pod, pods);
    UnsharedClaims(pods, pods, k);
    ClaimsPositive(Unshared(pods, pods), k);
  }

  /** What a kept pod claims, no Docker candidate claims and no other kept pod claims. */
  lemma KeptPodClaimsAlone(cs: seq<Candidate>, pod: Candidate, k: Claim)
    requires pod in KeptPods(cs) && Makes(pod, k)
    ensures Claims(OfSource(cs, Docker), k) == 0
    ensures Claims(KeptPods(cs), k) == 1 && Claims(Kept(cs), k) == 1
  {
    KeptPodsAreClean(cs, pod);
    UnopposedClaimsNothing(pod, OfSource(cs, Docker), k);
    UnsharedClaimsOnce(Unopposed(OfSource(cs, Kubernetes), OfSource(cs, Docker)), pod, k);
    ClaimsConcat(OfSource(cs, Docker), KeptPods(cs), k);
  }

  /** What a Docker candidate claims, no kept pod claims. */
  lemma DockerClaimsStand(cs: seq<Candidate>, k: Claim)
    requires Claims(OfSource(cs, Docker), k) > 0
    ensures Claims(KeptPods(cs), k) == 0 && Claims(Kept(cs), k) == Claims(OfSource(cs, Docker), k)
  {
    ClaimsPositive(KeptPods(cs), k);
    if Claims(KeptPods(cs), k) > 0 {
      var pod :| pod in KeptPods(cs) && Makes(pod, k);
      KeptPodClaimsAlone(cs, pod, k);
      assert false;
    }
    ClaimsConcat(OfSource(cs, Docker), KeptPods(cs), k);
  }

  lemma MacAddressesConcat(a: seq<Candidate>, b: seq<Candidate>, m: Mac)
    ensures MacAddresses(a + b, m) == MacAddresses(a, m) + MacAddresses(b, m)
  {
  }

  lemma MacAddressesEmpty(cs: seq<Candidate>, m: Mac)
    ensures MacAddresses(cs, m) == {} <==> Claims(cs, ClaimedMac(m)) == 0
  {
    ClaimsPositive(cs, ClaimedMac(m));
    if Claims(cs, ClaimedMac(m)) > 0 {
      var c :| c in cs && Makes(c, ClaimedMac(m));
      assert c.address in MacAddresses(cs, m);
    }
  }

  lemma DockerMacsStand(cs: seq<Candidate>, m: Mac)
    requires Claims(OfSource(cs, Docker), ClaimedMac(m)) > 0
    ensures MacAddresses(Kept(cs), m) == MacAddresses(OfSource(cs, Docker), m)
  {
    DockerClaimsStand(cs, ClaimedMac(m));
    MacAddressesEmpty(KeptPods(cs), m);
    MacAddressesConcat(OfSource(cs, Docker), KeptPods(cs), m);
  }

  /** A claim made once has one address behind it. */
  lemma {:induction false} OneClaimOneAddress(cs: seq<Candidate>, m: Mac)
    requires Claims(cs, ClaimedMac(m)) == 1
    ensures |MacAddresses(cs, m)| == 1
  {
    var holder := Holder(cs, ClaimedMac(m));
    forall c <- cs | MacOf(c) == Some(m) ensures c.address == holder.address {
      var i :| 0 <= i < |cs| && cs[i] == c;
      var j :| 0 <= j < |cs| && cs[j] == holder;
      if i != j { OnlyHolder(cs, ClaimedMac(m), if i < j then i else j, if i < j then j else i); }
    }
    assert MacAddresses(cs, m) == {holder.address};
  }

  // --------------------------------------------------------------------------- theorems

  predicate NamesKeptPod(cs: seq<Candidate>, id: string) { Claims(KeptPods(cs), ClaimedIdentity(id)) > 0 }

  /** A name is unique with the pods exactly when it was without them or a kept pod bears it. */
  lemma UniqueWithPods(cs: seq<Candidate>, id: string)
    ensures Unique(Kept(cs), id) <==> Unique(OfSource(cs, Docker), id) || NamesKeptPod(cs, id)
    ensures Unique(OfSource(cs, Docker), id) ==> Named(Kept(cs), id) == Named(OfSource(cs, Docker), id)
  {
    var docker, k := OfSource(cs, Docker), ClaimedIdentity(id);
    ClaimsConcat(docker, KeptPods(cs), k);
    ClaimsPositive(KeptPods(cs), k);
    if NamesKeptPod(cs, id) {
      var pod :| pod in KeptPods(cs) && Makes(pod, k);
      KeptPodClaimsAlone(cs, pod, k);
      KeptPodsAreClean(cs, pod);
    }
    if Unique(docker, id) {
      DockerClaimsStand(cs, k);
      SameHolder(docker, KeptPods(cs), k);
    }
  }

  lemma {:induction false} SameHolder(a: seq<Candidate>, b: seq<Candidate>, k: Claim)
    requires Claims(a, k) > 0 && Claims(b, k) == 0
    ensures Claims(a + b, k) > 0 && Holder(a + b, k) == Holder(a, k)
  {
    ClaimsConcat(a, b, k);
    if b == [] {
      assert a + b == a;
    } else {
      SameHolder(a, b[..|b| - 1], k);
      assert (a + b)[..|a + b| - 1] == a + b[..|b| - 1];
    }
  }

  lemma ProblemsWithPods(cs: seq<Candidate>, c: Candidate, p: Problem)
    requires c in OfSource(cs, Docker)
    ensures CausesProblem(Kept(cs), c, p) <==>
            CausesProblem(OfSource(cs, Docker), c, p) && !(p.Unresolved? && NamesKeptPod(cs, p.id))
  {
    var docker := OfSource(cs, Docker);
    match p
    case BadAccept(_, _) =>
      if c.isolationId.Some? {
        var id := c.isolationId.value;
        UniqueWithPods(cs, id);
        ClaimsPositive(docker, ClaimedIdentity(id));
        DockerClaimsStand(cs, ClaimedIdentity(id));
      }
    case Unresolved(_, id) => UniqueWithPods(cs, id);
    case BadAllow(_, _) =>
  }

  lemma DockerProblemsWithPods(cs: seq<Candidate>, p: Problem)
    ensures HasProblem(Kept(cs), Docker, p) <==>
            HasProblem(OfSource(cs, Docker), Docker, p) && !(p.Unresolved? && NamesKeptPod(cs, p.id))
  {
    var docker := OfSource(cs, Docker);
    OfSourceIsOfSource(cs, Docker);
    forall c <- docker
      ensures CausesProblem(Kept(cs), c, p) <==>
              CausesProblem(docker, c, p) && !(p.Unresolved? && NamesKeptPod(cs, p.id))
    {
      ProblemsWithPods(cs, c, p);
    }
    forall c <- KeptPods(cs) ensures c.source == Kubernetes { KeptPodsAreClean(cs, c); }
    forall c <- Kept(cs) | c.source == Docker ensures c in docker { assert c in docker || c in KeptPods(cs); }
  }

  lemma SharedClaimsWithPods(cs: seq<Candidate>, k: Claim)
    ensures Claims(Kept(cs), k) > 1 <==> Claims(OfSource(cs, Docker), k) > 1
  {
    ClaimsConcat(OfSource(cs, Docker), KeptPods(cs), k);
    ClaimsPositive(KeptPods(cs), k);
    if Claims(KeptPods(cs), k) > 0 {
      var pod :| pod in KeptPods(cs) && Makes(pod, k);
      KeptPodClaimsAlone(cs, pod, k);
    }
  }

  lemma SharedMacsWithPods(cs: seq<Candidate>, m: Mac)
    ensures |MacAddresses(Kept(cs), m)| > 1 <==> |MacAddresses(OfSource(cs, Docker), m)| > 1
  {
    var docker, k := OfSource(cs, Docker), ClaimedMac(m);
    if Claims(docker, k) > 0 {
      DockerMacsStand(cs, m);
    } else {
      MacAddressesEmpty(docker, m);
      ClaimsConcat(docker, KeptPods(cs), k);
      ClaimsPositive(KeptPods(cs), k);
      if Claims(KeptPods(cs), k) > 0 {
        var pod :| pod in KeptPods(cs) && Makes(pod, k);
        KeptPodClaimsAlone(cs, pod, k);
        OneClaimOneAddress(Kept(cs), m);
      } else {
        MacAddressesEmpty(Kept(cs), m);
      }
    }
  }

  lemma IdentityIssuesWithPods(cs: seq<Candidate>, issue: Issue)
    requires issue.InvalidIdentity? || issue.MissingIdentity?
    ensures HasIssue(Kept(cs), issue) <==> HasIssue(OfSource(cs, Docker), issue)
  {
    forall c <- KeptPods(cs) ensures !IdentityIssueOf(c, issue) { KeptPodsAreClean(cs, c); }
    forall c <- OfSource(cs, Docker) ensures c in Kept(cs) {}
    forall c <- Kept(cs) ensures c in OfSource(cs, Docker) || c in KeptPods(cs) {}
  }

  lemma SharedClaimIssuesWithPods(cs: seq<Candidate>, issue: Issue)
    requires issue.DuplicateIdentity? || issue.SharedAddress? || issue.SharedMac?
    ensures HasIssue(Kept(cs), issue) <==> HasIssue(OfSource(cs, Docker), issue)
  {
    if issue.DuplicateIdentity? { SharedClaimsWithPods(cs, ClaimedIdentity(issue.id)); }
    if issue.SharedAddress? { SharedClaimsWithPods(cs, ClaimedAddress(issue.address)); }
    if issue.SharedMac? { SharedMacsWithPods(cs, issue.mac); }
  }

  lemma ProblemIssuesWithPods(cs: seq<Candidate>, issue: Issue)
    requires issue.DockerProblem?
    ensures HasIssue(Kept(cs), issue) <==>
            HasIssue(OfSource(cs, Docker), issue) && !(issue.problem.Unresolved? && NamesKeptPod(cs, issue.problem.id))
  {
    DockerProblemsWithPods(cs, issue.problem);
  }

  /**
   Whatever pods are attached, the bridge has exactly the issues its Docker candidates have on their
   own, less the Docker allowances that a kept pod's identity now resolves. So a pod can neither add
   an issue nor make an enforceable policy unenforceable.
   */
  lemma PodsAddNoIssue(cs: seq<Candidate>, issue: Issue)
    ensures HasIssue(Kept(cs), issue) <==>
            && HasIssue(OfSource(cs, Docker), issue)
            && !(issue.DockerProblem? && issue.problem.Unresolved? && NamesKeptPod(cs, issue.problem.id))
  {
    if issue.InvalidIdentity? || issue.MissingIdentity? {
      IdentityIssuesWithPods(cs, issue);
    } else if issue.DockerProblem? {
      ProblemIssuesWithPods(cs, issue);
    } else {
      SharedClaimIssuesWithPods(cs, issue);
    }
  }

  lemma EligibilityIsNeverLost(cs: seq<Candidate>)
    requires Eligible(OfSource(cs, Docker))
    ensures Eligible(Kept(cs))
  {
    forall issue ensures !HasIssue(Kept(cs), issue) { PodsAddNoIssue(cs, issue); }
  }

  /**
   A Docker participant keeps its MAC binding, and its allowances towards Docker identities are
   exactly the ones it has without pods.
   */
  lemma DockerKeepsItsRights(cs: seq<Candidate>, c: Candidate)
    requires c in OfSource(cs, Docker)
    ensures BoundMac(Kept(cs), c) == BoundMac(OfSource(cs, Docker), c)
    ensures forall a :: a in Allowances(OfSource(cs, Docker), c) <==>
              a in Allowances(Kept(cs), c) && Claims(OfSource(cs, Docker), ClaimedIdentity(a.destinationId)) > 0
  {
    var docker := OfSource(cs, Docker);
    ClaimsPositive(docker, ClaimedAddress(c.address));
    DockerClaimsStand(cs, ClaimedAddress(c.address));
    if MacOf(c).Some? {
      ClaimsPositive(docker, ClaimedMac(MacOf(c).value));
      DockerMacsStand(cs, MacOf(c).value);
    }
    OfSourceIsOfSource(cs, Docker);
    if Parsed(c).Ok? {
      forall spec <- Parsed(c).value
        ensures Unique(docker, spec.destinationId) <==>
                Unique(Kept(cs), spec.destinationId) && Claims(docker, ClaimedIdentity(spec.destinationId)) > 0
        ensures Unique(docker, spec.destinationId) ==> Resolved(docker, spec) == Resolved(Kept(cs), spec)
      {
        DockerResolution(cs, spec);
      }
    }
  }

  lemma DockerResolution(cs: seq<Candidate>, spec: AllowSpec)
    ensures Unique(OfSource(cs, Docker), spec.destinationId) <==>
            Unique(Kept(cs), spec.destinationId) &&
              Claims(OfSource(cs, Docker), ClaimedIdentity(spec.destinationId)) > 0
    ensures Unique(OfSource(cs, Docker), spec.destinationId) ==>
              Resolved(OfSource(cs, Docker), spec) == Resolved(Kept(cs), spec)
  {
    UniqueWithPods(cs, spec.destinationId);
    if Claims(OfSource(cs, Docker), ClaimedIdentity(spec.destinationId)) > 0 {
      DockerClaimsStand(cs, ClaimedIdentity(spec.destinationId));
    }
  }

  /** Every allowance leads to the one kept bearer of the identity; a pod's is one that bearer accepts. */
  lemma AllowancesAreAccepted(cs: seq<Candidate>, c: Candidate, a: Allowance)
    requires c in Kept(cs) && a in Allowances(Kept(cs), c)
    ensures Unique(Kept(cs), a.destinationId)
    ensures var bearer := Named(Kept(cs), a.destinationId);
            && bearer in Kept(cs) && bearer.isolationId == Some(a.destinationId) && bearer.address == a.destination
            && (c.source == Kubernetes ==> c.isolationId.Some? && c.isolationId.value in AcceptEntries(bearer.accept))
  {
    var spec :| spec in Parsed(c).value && Resolves(Kept(cs), c, spec) && a == Resolved(Kept(cs), spec);
  }

  /** Bound participants pair addresses with MACs one to one, and stand for different candidates. */
  lemma BindingIsOneToOne(cs: seq<Candidate>, i: nat, j: nat)
    requires i < |cs| && j < |cs| && BoundMac(cs, cs[i]).Some? && BoundMac(cs, cs[j]).Some?
    ensures cs[i].address == cs[j].address <==> BoundMac(cs, cs[i]) == BoundMac(cs, cs[j])
    ensures cs[i].address == cs[j].address <==> i == j
  {
    if cs[i].address == cs[j].address && i != j {
      OnlyHolder(cs, ClaimedAddress(cs[i].address), if i < j then i else j, if i < j then j else i);
      assert false;
    }
    if BoundMac(cs, cs[i]) == BoundMac(cs, cs[j]) {
      var m := BoundMac(cs, cs[i]).value;
      assert cs[i].address in MacAddresses(cs, m) && cs[j].address in MacAddresses(cs, m);
      Singleton(MacAddresses(cs, m), cs[i].address, cs[j].address);
    }
  }

  lemma Singleton<T>(s: set<T>, x: T, y: T)
    requires |s| == 1 && x in s && y in s
    ensures x == y
  {
    if x != y {
      SubsetSize({x, y}, s);
      assert false;
    }
  }
}
