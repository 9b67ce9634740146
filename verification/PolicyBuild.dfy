/** How src/isolation.rs turns discovered candidates into isolation participants. */
module PolicyBuild {
  import opened Basics
  import opened Addresses
  import opened IsolationRules
  import opened Labels

  datatype CandidateSource = Docker | Kubernetes

  datatype Candidate = Candidate(
    containerId: string,
    name: string,
    address: Ipv4,
    isolationId: Option<string>,
    allow: Option<string>,
    mac: Option<string>,
    source: CandidateSource,
    accept: Option<string>)

  function MacOf(c: Candidate): Option<Mac> { if c.mac.None? then None else NormalizeMac(c.mac.value) }

  // ----------------------------------------------------------------------------- claims

  /** What a candidate claims for itself. */
  datatype Claim = ClaimedAddress(address: Ipv4) | ClaimedMac(mac: Mac) | ClaimedIdentity(identity: string)

  predicate Makes(c: Candidate, claim: Claim) {
    match claim
    case ClaimedAddress(a) => c.address == a
    case ClaimedMac(m) => MacOf(c) == Some(m)
    case ClaimedIdentity(id) => c.isolationId == Some(id)
  }

  /** How many candidates make the claim. */
  function Claims(cs: seq<Candidate>, claim: Claim): nat {
    if cs == [] then 0 else Claims(cs[..|cs| - 1], claim) + (if Makes(cs[|cs| - 1], claim) then 1 else 0)
  }

  function Holder(cs: seq<Candidate>, claim: Claim): (c: Candidate)
    requires Claims(cs, claim) > 0
    ensures c in cs && Makes(c, claim)
  {
    if Makes(cs[|cs| - 1], claim) then cs[|cs| - 1] else Holder(cs[..|cs| - 1], claim)
  }

  function MacAddresses(cs: seq<Candidate>, mac: Mac): set<Ipv4> {
    set c | c in cs && MacOf(c) == Some(mac) :: c.address
  }

  lemma {:induction false} ClaimsConcat(a: seq<Candidate>, b: seq<Candidate>, k: Claim)
    ensures Claims(a + b, k) == Claims(a, k) + Claims(b, k)
  {
    if b == [] {
      assert a + b == a;
    } else {
      ClaimsConcat(a, b[..|b| - 1], k);
      assert (a + b)[..|a + b| - 1] == a + b[..|b| - 1];
    }
  }

  lemma {:induction false} ClaimsPositive(cs: seq<Candidate>, k: Claim)
    ensures Claims(cs, k) > 0 <==> exists c <- cs :: Makes(c, k)
  {
    if cs != [] {
      var rest, last := cs[..|cs| - 1], cs[|cs| - 1];
      ClaimsPositive(rest, k);
      assert cs == rest + [last];
    }
  }

  /** A claim made once is made by one candidate only. */
  lemma {:induction false} OnlyHolder(cs: seq<Candidate>, k: Claim, i: nat, j: nat)
    requires i < j < |cs| && Makes(cs[i], k) && Makes(cs[j], k)
    ensures Claims(cs, k) > 1
  {
    if j < |cs| - 1 {
      OnlyHolder(cs[..|cs| - 1], k, i, j);
    } else {
      ClaimsPositive(cs[..|cs| - 1], k);
      assert cs[i] == cs[..|cs| - 1][i];
    }
  }

  lemma ClaimsOne(c: Candidate, k: Claim)
    ensures Claims([c], k) == if Makes(c, k) then 1 else 0
  {
    assert [c][..0] == [];
  }

  // -------------------------------------------------------------------------- screening

  datatype PodProblem =
    | NoValidIdentity | ClaimsDockerAddress | ClaimsDockerMac | ClaimsDockerIdentity
    | SharesWithPod

  function OfSource(cs: seq<Candidate>, source: CandidateSource): seq<Candidate> {
    if cs == [] then []
    else OfSource(cs[..|cs| - 1], source) + (if cs[|cs| - 1].source == source then [cs[|cs| - 1]] else [])
  }

  /** Why a pod loses to the Docker candidates, if it does. */
  function DockerConflict(pod: Candidate, docker: seq<Candidate>): Option<PodProblem> {
    if pod.isolationId.None? || !ValidIdentity(pod.isolationId.value) then Some(NoValidIdentity)
    else if Claims(docker, ClaimedAddress(pod.address)) > 0 then Some(ClaimsDockerAddress)
    else if MacOf(pod).Some? && Claims(docker, ClaimedMac(MacOf(pod).value)) > 0 then Some(ClaimsDockerMac)
    else if Claims(docker, ClaimedIdentity(pod.isolationId.value)) > 0 then Some(ClaimsDockerIdentity)
    else None
  }

  function Unopposed(pods: seq<Candidate>, docker: seq<Candidate>): (rest: seq<Candidate>)
    ensures forall p <- rest :: DockerConflict(p, docker).None?
  {
    if pods == [] then []
    else Unopposed(pods[..|pods| - 1], docker)
         + (if DockerConflict(pods[|pods| - 1], docker).None? then [pods[|pods| - 1]] else [])
  }

  /** The pod shares an address, MAC or identity with another pod of the list. */
  predicate Shares(pod: Candidate, pods: seq<Candidate>) {
    || Claims(pods, ClaimedAddress(pod.address)) > 1
    || (MacOf(pod).Some? && Claims(pods, ClaimedMac(MacOf(pod).value)) > 1)
    || (pod.isolationId.Some? && Claims(pods, ClaimedIdentity(pod.isolationId.value)) > 1)
  }

  function Unshared(pods: seq<Candidate>, all: seq<Candidate>): (rest: seq<Candidate>)
    ensures forall p <- rest :: p in pods && !Shares(p, all)
  {
    if pods == [] then []
    else Unshared(pods[..|pods| - 1], all) + (if Shares(pods[|pods| - 1], all) then [] else [pods[|pods| - 1]])
  }

  function KeptPods(cs: seq<Candidate>): seq<Candidate> {
    var rest := Unopposed(OfSource(cs, Kubernetes), OfSource(cs, Docker));
    Unshared(rest, rest)
  }

  /** The candidates the policy is built from: every Docker one, and the pods that conflict with nothing. */
  function Kept(cs: seq<Candidate>): seq<Candidate> { OfSource(cs, Docker) + KeptPods(cs) }

  lemma {:induction false} OfSourceIsOfSource(cs: seq<Candidate>, source: CandidateSource)
    ensures forall c <- OfSource(cs, source) :: c.source == source && c in cs
    ensures forall c <- cs | c.source == source :: c in OfSource(cs, source)
  {
    if cs != [] {
      OfSourceIsOfSource(cs[..|cs| - 1], source);
      assert cs == cs[..|cs| - 1] + [cs[|cs| - 1]];
    }
  }

  lemma {:induction false} UnopposedAreFrom(pods: seq<Candidate>, docker: seq<Candidate>)
    ensures forall p <- Unopposed(pods, docker) :: p in pods
  {
    if pods != [] {
      UnopposedAreFrom(pods[..|pods| - 1], docker);
      assert pods == pods[..|pods| - 1] + [pods[|pods| - 1]];
    }
  }

  // ------------------------------------------------------------------------- resolution

  /** The identity is valid and names exactly one candidate. */
  predicate Unique(cs: seq<Candidate>, id: string) {
    ValidIdentity(id) && Claims(cs, ClaimedIdentity(id)) == 1
  }

  function Named(cs: seq<Candidate>, id: string): Candidate
    requires Unique(cs, id)
  {
    Holder(cs, ClaimedIdentity(id))
  }

  function Parsed(c: Candidate): Result<seq<AllowSpec>, AllowError> {
    if c.allow.None? then Ok([]) else ParseAllowList(c.allow.value)
  }

  /** The destination lists the candidate's identity among those it accepts. */
  predicate AcceptedBy(c: Candidate, destination: Candidate) {
    && c.isolationId.Some? && ValidIdentity(c.isolationId.value)
    && c.isolationId.value in AcceptEntries(destination.accept)
  }

  predicate Resolves(cs: seq<Candidate>, c: Candidate, spec: AllowSpec) {
    Unique(cs, spec.destinationId) && (c.source == Docker || AcceptedBy(c, Named(cs, spec.destinationId)))
  }

  function Resolved(cs: seq<Candidate>, spec: AllowSpec): Allowance
    requires Unique(cs, spec.destinationId)
  {
    Allowance(spec.destinationId, Named(cs, spec.destinationId).address, spec.port, spec.protocol)
  }

  function Allowances(cs: seq<Candidate>, c: Candidate): set<Allowance> {
    if Parsed(c).Err? then {}
    else set spec | spec in Parsed(c).value && Resolves(cs, c, spec) :: Resolved(cs, spec)
  }

  /** A candidate's MAC is bound when nobody else claims its address and the MAC claims no other address. */
  function BoundMac(cs: seq<Candidate>, c: Candidate): Option<Mac> {
    if MacOf(c).Some? && Claims(cs, ClaimedAddress(c.address)) == 1 && |MacAddresses(cs, MacOf(c).value)| == 1
    then MacOf(c) else None
  }

  /** The participant made of a candidate, its allowances listed in some order. */
  ghost predicate Represents(p: Participant, cs: seq<Candidate>, c: Candidate) {
    && p.containerId == c.containerId && p.name == c.name && p.address == c.address
    && p.isolationId == (if c.isolationId.Some? && ValidIdentity(c.isolationId.value) then c.isolationId else None)
    && p.mac == BoundMac(cs, c)
    && Lists(p.allowances, Allowances(cs, c))
  }

  ghost predicate Lists<T(!new)>(order: seq<T>, elements: set<T>) {
    && (forall x :: x in order <==> x in elements)
    && (forall i: nat, j: nat | i < j < |order| :: order[i] != order[j])
  }

  // ----------------------------------------------------------------------------- issues

  /** What is wrong with a candidate's own lists; an issue on Docker, only a rejection on a pod. */
  datatype Problem =
    | BadAccept(name: string, entry: string)
    | Unresolved(name: string, id: string)
    | BadAllow(name: string, error: AllowError)

  datatype Issue =
    | InvalidIdentity(name: string)
    | MissingIdentity(name: string)
    | DuplicateIdentity(id: string)
    | SharedAddress(address: Ipv4)
    | SharedMac(mac: Mac)
    | DockerProblem(problem: Problem)

  datatype Rejection =
    | PodRejected(name: string, why: PodProblem)
    | NotAccepted(name: string, id: string)
    | PodsProblem(problem: Problem)

  predicate CausesProblem(cs: seq<Candidate>, c: Candidate, p: Problem) {
    && c.name == p.name
    && match p
       case BadAccept(_, entry) =>
         && c.isolationId.Some? && Unique(cs, c.isolationId.value)
         && entry in AcceptEntries(c.accept) && !ValidIdentity(entry)
       case Unresolved(_, id) =>
         !Unique(cs, id) && Parsed(c).Ok? && exists spec <- Parsed(c).value :: spec.destinationId == id
       case BadAllow(_, error) => Parsed(c) == Err(error)
  }

  ghost predicate HasProblem(cs: seq<Candidate>, source: CandidateSource, p: Problem) {
    exists c <- cs :: c.source == source && CausesProblem(cs, c, p)
  }

  predicate IdentityIssueOf(c: Candidate, issue: Issue) {
    match issue
    case InvalidIdentity(name) => c.name == name && c.isolationId.Some? && !ValidIdentity(c.isolationId.value)
    case MissingIdentity(name) => c.name == name && c.isolationId.None?
    case _ => false
  }

  ghost predicate HasIssue(cs: seq<Candidate>, issue: Issue) {
    match issue
    case InvalidIdentity(_) => exists c <- cs :: IdentityIssueOf(c, issue)
    case MissingIdentity(_) => exists c <- cs :: IdentityIssueOf(c, issue)
    case DuplicateIdentity(id) => ValidIdentity(id) && Claims(cs, ClaimedIdentity(id)) > 1
    case SharedAddress(a) => Claims(cs, ClaimedAddress(a)) > 1
    case SharedMac(m) => |MacAddresses(cs, m)| > 1
    case DockerProblem(p) => HasProblem(cs, Docker, p)
  }

  /** The policy may be enforced. */
  ghost predicate Eligible(cs: seq<Candidate>) { cs != [] && forall issue :: !HasIssue(cs, issue) }
}
