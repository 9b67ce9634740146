/**
 The debounced resolution health of src/dns.rs: thresholds open an episode, and a dwell plus a
 ratio over a 128-bit window of recent outcomes close it.
 */
module Health {
  import opened Basics

  const DEGRADED_DWELL: nat := 60 * SECOND
  const RECOVERY_WINDOW: nat := 128
  const RECOVERY_MIN_SAMPLES: nat := 32
  const RECOVERY_FAILURE_RATIO: nat := 8
  const HEALTH_REPUBLISH_INTERVAL: nat := 30 * SECOND

  datatype Status = Unknown | Healthy | Degraded

  datatype Failure = Upstream | Admission

  datatype Verdict = Verdict(status: Status, cause: Option<Failure>)

  datatype State = State(
    status: Status,
    consecutiveFailures: nat,
    consecutiveSuccesses: nat,
    failureThreshold: nat,
    successThreshold: nat,
    recent: nat,
    recentLen: nat,
    degradedCause: Option<Failure>,
    degradedSince: Option<Instant>,
    publishedAt: Option<Instant>)

  /** One query: how it failed, if it did, and when. */
  datatype Outcome = Outcome(failure: Option<Failure>, now: Instant)

  function PopCount(word: nat): nat { if word == 0 then 0 else word % 2 + PopCount(word / 2) }

  // -------------------------------------------------------------------- specification

  function New(failureThreshold: nat, successThreshold: nat): State {
    State(Unknown, 0, 0, failureThreshold, successThreshold, 0, 0, None, None, None)
  }

  function Bit(o: Outcome): nat { if o.failure.Some? then 1 else 0 }

  /** The low `width` bits. */
  function Truncated(n: nat, width: nat): nat { n % Pow2(width) }

  /** Shift an outcome into the 128-bit word; the bit shifted out is lost. */
  function Shifted(word: nat, o: Outcome): nat { Truncated(2 * word + Bit(o), RECOVERY_WINDOW) }

  predicate TroubleHasPassed(s: State) {
    s.recentLen >= RECOVERY_MIN_SAMPLES && PopCount(s.recent) * RECOVERY_FAILURE_RATIO <= s.recentLen
  }

  function DegradedFor(s: State, now: Instant): nat {
    if s.degradedSince.Some? then Since(now, s.degradedSince.value) else 0
  }

  function Enter(s: State, status: Status, cause: Option<Failure>, now: Instant): (State, Option<Verdict>) {
    (s.(status := status, degradedCause := cause,
        degradedSince := if status == Degraded then Some(now) else None,
        publishedAt := Some(now)),
     Some(Verdict(status, cause)))
  }

  function Reaffirm(s: State, now: Instant): (State, Option<Verdict>) {
    if s.status == Unknown then (s, None)
    else if s.publishedAt.Some? && Since(now, s.publishedAt.value) < HEALTH_REPUBLISH_INTERVAL then (s, None)
    else (s.(publishedAt := Some(now)), Some(Verdict(s.status, s.degradedCause)))
  }

  /** The counters and the window once the outcome has been noted. */
  function Noted(s: State, o: Outcome): State {
    var windowed := s.(recent := Shifted(s.recent, o), recentLen := Min(s.recentLen + 1, RECOVERY_WINDOW));
    if o.failure.None?
    then windowed.(consecutiveFailures := 0, consecutiveSuccesses := Min(s.consecutiveSuccesses + 1, U32_MAX))
    else windowed.(consecutiveSuccesses := 0, consecutiveFailures := Min(s.consecutiveFailures + 1, U32_MAX))
  }

  predicate Recovers(s: State, now: Instant) {
    s.consecutiveSuccesses >= s.successThreshold && TroubleHasPassed(s) && DegradedFor(s, now) >= DEGRADED_DWELL
  }

  function Recorded(s: State, o: Outcome): (State, Option<Verdict>) {
    var n := Noted(s, o);
    if o.failure.None? then
      if s.status == Unknown || (s.status == Degraded && Recovers(n, o.now)) then Enter(n, Healthy, None, o.now)
      else Reaffirm(n, o.now)
    else
      if s.status != Degraded && n.consecutiveFailures >= s.failureThreshold then Enter(n, Degraded, o.failure, o.now)
      else Reaffirm(n, o.now)
  }

  function Run(failureThreshold: nat, successThreshold: nat, os: seq<Outcome>): State {
    if os == [] then New(failureThreshold, successThreshold)
    else Recorded(Run(failureThreshold, successThreshold, os[..|os| - 1]), os[|os| - 1]).0
  }

  // ------------------------------------------------------------------ imperative form

  class DnsHealthState {
    var status: Status
    var consecutiveFailures: nat
    var consecutiveSuccesses: nat
    const failureThreshold: nat
    const successThreshold: nat
    var recent: nat
    var recentLen: nat
    var degradedCause: Option<Failure>
    var degradedSince: Option<Instant>
    var publishedAt: Option<Instant>

    ghost function Now(): State
      reads this
    {
      State(status, consecutiveFailures, consecutiveSuccesses, failureThreshold, successThreshold,
            recent, recentLen, degradedCause, degradedSince, publishedAt)
    }

    constructor (failures: nat, successes: nat)
      ensures Now() == New(failures, successes)
    {
      status, consecutiveFailures, consecutiveSuccesses := Unknown, 0, 0;
      failureThreshold, successThreshold := failures, successes;
      recent, recentLen, degradedCause, degradedSince, publishedAt := 0, 0, None, None, None;
    }

    method Record(failure: Option<Failure>, now: Instant) returns (verdict: Option<Verdict>)
      modifies this
      ensures (Now(), verdict) == Recorded(old(Now()), Outcome(failure, now))
    {
      var o := Outcome(failure, now);
      recent := Shifted(recent, o);
      recentLen := if recentLen + 1 < RECOVERY_WINDOW then recentLen + 1 else RECOVERY_WINDOW;
      match failure {
        case None =>
          consecutiveFailures := 0;
          consecutiveSuccesses := Min(consecutiveSuccesses + 1, U32_MAX);
          var passed := HasTroublePassed();
          var held := HeldFor(now);
          if status == Unknown {
            verdict := EnterVerdict(Healthy, None, now);
          } else if status == Degraded && consecutiveSuccesses >= successThreshold && passed && held >= DEGRADED_DWELL {
            verdict := EnterVerdict(Healthy, None, now);
          } else {
            verdict := ReaffirmVerdict(now);
          }
        case Some(cause) =>
          consecutiveSuccesses := 0;
          consecutiveFailures := Min(consecutiveFailures + 1, U32_MAX);
          if status != Degraded && consecutiveFailures >= failureThreshold {
            verdict := EnterVerdict(Degraded, Some(cause), now);
          } else {
            verdict := ReaffirmVerdict(now);
          }
      }
    }

    method EnterVerdict(next: Status, cause: Option<Failure>, now: Instant) returns (verdict: Option<Verdict>)
      modifies this
      ensures (Now(), verdict) == Enter(old(Now()), next, cause, now)
    {
      status := next;
      degradedCause := cause;
      degradedSince := if next == Degraded then Some(now) else None;
      publishedAt := Some(now);
      return Some(Verdict(next, cause));
    }

    method ReaffirmVerdict(now: Instant) returns (verdict: Option<Verdict>)
      modifies this`publishedAt
      ensures (Now(), verdict) == Reaffirm(old(Now()), now)
    {
      if status == Unknown { return None; }
      if publishedAt.Some? && Since(now, publishedAt.value) < HEALTH_REPUBLISH_INTERVAL { return None; }
      publishedAt := Some(now);
      return Some(Verdict(status, degradedCause));
    }

    /** The bits of the word are counted one by one. */
    method HasTroublePassed() returns (passed: bool)
      ensures passed == TroubleHasPassed(Now())
    {
      var ones, rest := 0, recent;
      while rest != 0
        invariant ones + PopCount(rest) == PopCount(recent)
      {
        ones, rest := ones + rest % 2, rest / 2;
      }
      return recentLen >= RECOVERY_MIN_SAMPLES && ones * RECOVERY_FAILURE_RATIO <= recentLen;
    }

    method HeldFor(now: Instant) returns (held: nat)
      ensures held == DegradedFor(Now(), now)
    {
      return if degradedSince.Some? then Since(now, degradedSince.value) else 0;
    }
  }

  // ------------------------------------------------------------------------- the window

  /** The last `RECOVERY_WINDOW` outcomes, or all of them. */
  function Latest(os: seq<Outcome>): seq<Outcome> {
    if |os| <= RECOVERY_WINDOW then os else os[|os| - RECOVERY_WINDOW..]
  }

  function Failures(os: seq<Outcome>): nat {
    if os == [] then 0 else Failures(os[..|os| - 1]) + Bit(os[|os| - 1])
  }

  /** The outcomes as a binary number, newest in the low bit. */
  function Word(os: seq<Outcome>): nat {
    if os == [] then 0 else 2 * Word(os[..|os| - 1]) + Bit(os[|os| - 1])
  }

  lemma {:induction false} WordBound(os: seq<Outcome>)
    ensures Word(os) < Pow2(|os|)
  {
    if os != [] { WordBound(os[..|os| - 1]); }
  }

  lemma {:induction false} WordSplit(os: seq<Outcome>)
    requires os != []
    ensures Word(os) == Bit(os[0]) * Pow2(|os| - 1) + Word(os[1..])
  {
    var n := |os| - 1;
    if n == 0 {
      assert os[..n] == [] && os[1..] == [];
    } else {
      WordSplit(os[..n]);
      assert os[1..][..n - 1] == os[..n][1..];
    }
  }

  lemma {:induction false} PopCountShift(rest: nat, bit: nat)
    requires bit <= 1
    ensures PopCount(2 * rest + bit) == PopCount(rest) + bit
  {
    assert (2 * rest + bit) % 2 == bit && (2 * rest + bit) / 2 == rest;
  }

  lemma {:induction false} WordCounts(os: seq<Outcome>)
    ensures PopCount(Word(os)) == Failures(os)
  {
    if os != [] {
      WordCounts(os[..|os| - 1]);
      PopCountShift(Word(os[..|os| - 1]), Bit(os[|os| - 1]));
    }
  }

  lemma Pow2Grows(n: nat, m: nat)
    requires n <= m
    ensures Pow2(n) <= Pow2(m)
    decreases m
  {
    if n < m { Pow2Grows(n, m - 1); }
  }

  lemma ModDropsMultiple(k: nat, r: nat, m: nat)
    requires r < m && k <= 1
    ensures (k * m + r) % m == r
  {
  }

  /** Truncation drops the oldest outcome once the word is full, and nothing before that. */
  lemma {:induction false} TruncatedWord(os: seq<Outcome>, width: nat)
    requires |os| <= width + 1
    ensures Truncated(Word(os), width) == if |os| <= width then Word(os) else Word(os[1..])
  {
    if |os| <= width {
      WordBound(os);
      Pow2Grows(|os|, width);
      ModDropsMultiple(0, Word(os), Pow2(width));
    } else {
      WordSplit(os);
      WordBound(os[1..]);
      ModDropsMultiple(Bit(os[0]), Word(os[1..]), Pow2(width));
    }
  }

  lemma {:induction false} ShiftSlides(os: seq<Outcome>, o: Outcome)
    ensures Shifted(Word(Latest(os)), o) == Word(Latest(os + [o]))
  {
    var grown := Latest(os) + [o];
    assert grown[..|grown| - 1] == Latest(os);
    TruncatedWord(grown, RECOVERY_WINDOW);
    assert Latest(os + [o]) == if |grown| <= RECOVERY_WINDOW then grown else grown[1..];
  }

  lemma WindowOfRecorded(s: State, o: Outcome)
    ensures var s' := Recorded(s, o).0;
            s'.recent == Shifted(s.recent, o) && s'.recentLen == Min(s.recentLen + 1, RECOVERY_WINDOW)
  {
  }

  lemma {:induction false} WordIsExact(failures: nat, successes: nat, os: seq<Outcome>)
    ensures var s := Run(failures, successes, os); s.recent == Word(Latest(os)) && s.recentLen == |Latest(os)|
  {
    if os != [] {
      var before, last := os[..|os| - 1], os[|os| - 1];
      WordIsExact(failures, successes, before);
      ShiftSlides(before, last);
      assert before + [last] == os;
      WindowOfRecorded(Run(failures, successes, before), last);
    }
  }

  /**
   Over every run the word is the recent outcomes in binary, so its population count is the
   number of failures among the last 128 outcomes, or among all of them while fewer.
   */
  lemma WindowIsExact(failures: nat, successes: nat, os: seq<Outcome>)
    ensures var s := Run(failures, successes, os);
            && s.recent == Word(Latest(os))
            && s.recentLen == |Latest(os)|
            && PopCount(s.recent) == Failures(Latest(os))
  {
    WordIsExact(failures, successes, os);
    WordCounts(Latest(os));
  }

  // --------------------------------------------------------------------------- episodes

  function TrailingFailures(os: seq<Outcome>): nat {
    if os == [] || os[|os| - 1].failure.None? then 0 else 1 + TrailingFailures(os[..|os| - 1])
  }

  function TrailingSuccesses(os: seq<Outcome>): nat {
    if os == [] || os[|os| - 1].failure.Some? then 0 else 1 + TrailingSuccesses(os[..|os| - 1])
  }

  lemma {:induction false} CountersAreTrailing(failures: nat, successes: nat, os: seq<Outcome>)
    ensures var s := Run(failures, successes, os);
            && s.consecutiveFailures == Min(TrailingFailures(os), U32_MAX)
            && s.consecutiveSuccesses == Min(TrailingSuccesses(os), U32_MAX)
            && s.failureThreshold == failures && s.successThreshold == successes
  {
    if os != [] { CountersAreTrailing(failures, successes, os[..|os| - 1]); }
  }

  /** The status after the first `k` outcomes. */
  function StatusAt(failures: nat, successes: nat, os: seq<Outcome>, k: nat): Status
    requires k <= |os|
  {
    Run(failures, successes, os[..k]).status
  }

  /** Outcome `i` opened an episode that still lasts after `k` outcomes. */
  ghost predicate Episode(failures: nat, successes: nat, os: seq<Outcome>, i: nat, k: nat) {
    && i < k <= |os|
    && StatusAt(failures, successes, os, i) != Degraded
    && (forall l: nat | i < l <= k ::
          var s := Run(failures, successes, os[..l]);
          s.status == Degraded && s.degradedSince == Some(os[i].now) && s.degradedCause == os[i].failure)
  }

  /** Every degraded state belongs to an episode, which has kept one start and one cause. */
  lemma {:induction false} DegradedMeansEpisode(failures: nat, successes: nat, os: seq<Outcome>, k: nat)
    returns (i: nat)
    requires k <= |os| && StatusAt(failures, successes, os, k) == Degraded
    ensures Episode(failures, successes, os, i, k)
  {
    var before := Run(failures, successes, os[..k - 1]);
    assert os[..k][..k - 1] == os[..k - 1];
    assert Run(failures, successes, os[..k]) == Recorded(before, os[k - 1]).0;
    if before.status == Degraded {
      i := DegradedMeansEpisode(failures, successes, os, k - 1);
      assert before.degradedSince == Some(os[i].now);
      forall l: nat | i < l <= k
        ensures var s := Run(failures, successes, os[..l]);
                s.status == Degraded && s.degradedSince == Some(os[i].now) && s.degradedCause == os[i].failure
      {
      }
    } else {
      i := k - 1;
    }
  }

  /**
   Outside an episode, an outcome opens one exactly if it is a failure that ends a run of at least
   `failureThreshold` failures; otherwise a success makes the status Healthy and a failure leaves it.
   */
  lemma EpisodeOpensIff(failures: nat, successes: nat, os: seq<Outcome>, i: nat)
    requires i < |os| && failures <= U32_MAX && StatusAt(failures, successes, os, i) != Degraded
    ensures StatusAt(failures, successes, os, i + 1) == Degraded <==>
            os[i].failure.Some? && TrailingFailures(os[..i + 1]) >= failures
    ensures StatusAt(failures, successes, os, i + 1) != Degraded ==>
              StatusAt(failures, successes, os, i + 1) ==
              if os[i].failure.None? then Healthy else StatusAt(failures, successes, os, i)
    ensures StatusAt(failures, successes, os, i + 1) == Degraded ==> Episode(failures, successes, os, i, i + 1)
  {
    assert os[..i + 1][..i] == os[..i];
    CountersAreTrailing(failures, successes, os[..i]);
  }

  /** At least 32 of the last 128 outcomes are known, and at most one in eight of those failed. */
  predicate Calm(os: seq<Outcome>) {
    var window := if |os| <= 128 then os else os[|os| - 128..];
    |window| >= 32 && 8 * Failures(window) <= |window|
  }

  lemma CalmIffTroubleHasPassed(failures: nat, successes: nat, os: seq<Outcome>)
    ensures TroubleHasPassed(Run(failures, successes, os)) <==> Calm(os)
  {
    WindowIsExact(failures, successes, os);
  }

  lemma NotedIsRecorded(s: State, o: Outcome)
    ensures TroubleHasPassed(Noted(s, o)) == TroubleHasPassed(Recorded(s, o).0)
  {
  }

  /**
   Outcome `j` closes the episode that outcome `i` opened exactly if it is a success at least a minute
   after `i`, ends a run of at least `successThreshold` successes, and leaves recent outcomes calm; and
   then the status is Healthy.
   */
  lemma EpisodeClosesIff(failures: nat, successes: nat, os: seq<Outcome>, i: nat, j: nat)
    requires j < |os| && successes <= U32_MAX && Episode(failures, successes, os, i, j)
    ensures StatusAt(failures, successes, os, j + 1) != Degraded <==>
            && os[j].failure.None? && os[j].now >= os[i].now + 60 * SECOND
            && TrailingSuccesses(os[..j + 1]) >= successes && Calm(os[..j + 1])
    ensures StatusAt(failures, successes, os, j + 1) != Degraded ==>
              StatusAt(failures, successes, os, j + 1) == Healthy
  {
    assert os[..j + 1][..j] == os[..j];
    var s := Run(failures, successes, os[..j]);
    assert s.status == Degraded && s.degradedSince == Some(os[i].now);
    CalmIffTroubleHasPassed(failures, successes, os[..j + 1]);
    CountersAreTrailing(failures, successes, os[..j]);
    NotedIsRecorded(s, os[j]);
  }

  lemma {:induction false} AllSuccesses(os: seq<Outcome>, n: nat)
    requires n <= TrailingSuccesses(os)
    ensures n <= |os| && Failures(os[|os| - n..]) == 0
  {
    if n > 0 {
      var rest := os[..|os| - 1];
      AllSuccesses(rest, n - 1);
      var tail := os[|os| - n..];
      assert tail[..n - 1] == rest[|rest| - (n - 1)..];
    } else {
      assert os[|os|..] == [];
    }
  }

  /** Enough successes in a row, the last of them past the dwell, always end in a healthy verdict. */
  lemma StraightSuccessesRecover(failures: nat, successes: nat, os: seq<Outcome>)
    requires successes <= U32_MAX && TrailingSuccesses(os) >= Max(successes, RECOVERY_WINDOW)
    requires var s := Run(failures, successes, os[..|os| - 1]);
             s.status == Degraded ==> DegradedFor(s, os[|os| - 1].now) >= DEGRADED_DWELL
    ensures Run(failures, successes, os).status == Healthy
  {
    var last := os[|os| - 1];
    var s := Run(failures, successes, os[..|os| - 1]);
    WindowIsExact(failures, successes, os);
    CountersAreTrailing(failures, successes, os[..|os| - 1]);
    AllSuccesses(os, RECOVERY_WINDOW);
    var n := Noted(s, last);
    assert Run(failures, successes, os) == Recorded(s, last).0;
    assert n.recent == Run(failures, successes, os).recent && n.recentLen == RECOVERY_WINDOW;
    assert TroubleHasPassed(n);
    if s.status == Degraded { assert Recovers(n, last.now); }
  }

  /**
   What is published is always the current status with its cause. It is published exactly if the
   status changed, or is known and was not published in the last half minute.
   */
  lemma VerdictsAreCurrent(s: State, o: Outcome)
    ensures var (s', verdict) := Recorded(s, o);
            && (verdict.Some? ==>
                  verdict == Some(Verdict(s'.status, s'.degradedCause)) && s'.publishedAt == Some(o.now))
            && (verdict.None? ==> s'.publishedAt == s.publishedAt)
            && (verdict.Some? <==>
                  || s'.status != s.status
                  || (s.status != Unknown
                      && (s.publishedAt.None? || Since(o.now, s.publishedAt.value) >= 30 * SECOND)))
  {
  }
}
