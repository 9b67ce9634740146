/**
 The state publisher of src/control.rs: observations of subsystem checks, bare events, and
 closures over the snapshot. A transition is emitted exactly when a check's status or reason
 changes, so the event stream is a log from which the checks can be rebuilt.
 */
module Publisher {
  import opened Basics
  import opened Domain
  import opened Window

  const PENDING_REASON := "observation.pending"
  const PENDING_MESSAGE := "Waiting for the first observation"

  /** The snapshot fields these operations write, and every transition ever broadcast. */
  datatype State = State(
    sequence: nat,
    generatedAt: nat,
    checks: map<string, SubsystemCheck>,
    transitions: seq<Transition>,
    stream: seq<Transition>)

  const Initial := State(0, 0, map[], [], [])

  datatype Observation = Observation(
    id: string,
    status: CheckStatus,
    impact: Impact,
    reason: string,
    message: string,
    nextAttempt: Option<nat>,
    recoveryAttempt: Option<nat>,
    now: nat)

  datatype Call =
    | Observe(seen: Observation)
    | Emit(component: string, reason: string, message: string, now: nat)
    | Mutate(sequenceBumps: nat, now: nat)

  // ---------------------------------------------------------------- specification

  function PendingCheck(id: string, impact: Impact, now: nat): SubsystemCheck {
    SubsystemCheck(id, Pending, impact, now, now, PENDING_REASON, PENDING_MESSAGE, 0, None)
  }

  predicate Failing(status: CheckStatus) { status == Failed || status == Degraded }

  function Previous(s: State, seen: Observation): SubsystemCheck {
    if seen.id in s.checks then s.checks[seen.id] else PendingCheck(seen.id, seen.impact, seen.now)
  }

  predicate Changed(s: State, seen: Observation) {
    var previous := Previous(s, seen);
    previous.status != seen.status || previous.reason != seen.reason
  }

  function Recorded(s: State, seen: Observation): SubsystemCheck {
    var previous := Previous(s, seen);
    SubsystemCheck(
      seen.id, seen.status, seen.impact, seen.now,
      if Changed(s, seen) then seen.now else previous.changedAt,
      seen.reason, seen.message,
      if Failing(seen.status) then Min(previous.consecutiveFailures + 1, U32_MAX) else 0,
      seen.nextAttempt)
  }

  function Broadcast(s: State, t: Transition): State {
    s.(sequence := t.sequence,
       transitions := Push(s.transitions, t),
       stream := s.stream + [t])
  }

  function AfterObserve(s: State, seen: Observation): State {
    var noted := s.(checks := s.checks[seen.id := Recorded(s, seen)], generatedAt := seen.now);
    if Changed(s, seen) then
      Broadcast(noted, Transition(s.sequence + 1, seen.now, seen.id, Previous(s, seen).status, seen.status,
                                  seen.reason, seen.message, seen.recoveryAttempt))
    else noted
  }

  function AfterEmit(s: State, component: string, reason: string, message: string, now: nat): State {
    Broadcast(s.(generatedAt := now),
              Transition(s.sequence + 1, now, component, Healthy, Healthy, reason, message, None))
  }

  function Step(s: State, call: Call): State {
    match call
    case Observe(seen) => AfterObserve(s, seen)
    case Emit(component, reason, message, now) => AfterEmit(s, component, reason, message, now)
    case Mutate(bumps, now) => s.(sequence := s.sequence + bumps, generatedAt := now)
  }

  function Run(calls: seq<Call>): State {
    if calls == [] then Initial else Step(Run(calls[..|calls| - 1]), calls[|calls| - 1])
  }

  // ------------------------------------------------------------------ imperative form

  class StatePublisher {
    var sequence: nat
    var generatedAt: nat
    var checks: map<string, SubsystemCheck>
    const transitions: TransitionLog
    var stream: seq<Transition>

    ghost function Snapshot(): State
      reads this, transitions
    {
      State(sequence, generatedAt, checks, transitions.entries, stream)
    }

    constructor ()
      ensures Snapshot() == Initial && fresh(transitions)
    {
      sequence, generatedAt, checks, stream := 0, 0, map[], [];
      transitions := new TransitionLog();
    }

    method Observe(seen: Observation)
      modifies this, transitions
      ensures Snapshot() == AfterObserve(old(Snapshot()), seen)
    {
      var previous := if seen.id in checks then checks[seen.id] else PendingCheck(seen.id, seen.impact, seen.now);
      var changed := previous.status != seen.status || previous.reason != seen.reason;
      var failures := 0;
      if seen.status == Failed || seen.status == Degraded {
        failures := if previous.consecutiveFailures >= U32_MAX then U32_MAX else previous.consecutiveFailures + 1;
      }
      var changedAt := if changed then seen.now else previous.changedAt;
      checks := checks[seen.id := SubsystemCheck(seen.id, seen.status, seen.impact, seen.now, changedAt, seen.reason,
                                                 seen.message, failures, seen.nextAttempt)];
      generatedAt := seen.now;
      if changed {
        sequence := sequence + 1;
        var transition := Transition(sequence, seen.now, seen.id, previous.status, seen.status, seen.reason,
                                     seen.message, seen.recoveryAttempt);
        transitions.PushTransition(transition);
        stream := stream + [transition];
      }
    }

    method Emit(component: string, reason: string, message: string, now: nat)
      modifies this, transitions
      ensures Snapshot() == AfterEmit(old(Snapshot()), component, reason, message, now)
    {
      sequence := sequence + 1;
      generatedAt := now;
      var transition := Transition(sequence, now, component, Healthy, Healthy, reason, message, None);
      transitions.PushTransition(transition);
      stream := stream + [transition];
    }
  }

  // ------------------------------------------------------------------- replay of the log

  /** What a reader of the stream believes about a check. */
  datatype Belief = Belief(status: CheckStatus, reason: string)

  const Unseen := Belief(Pending, PENDING_REASON)

  /** Fold the stream for one component, starting from Pending. */
  function Replay(stream: seq<Transition>, id: string): Belief {
    if stream == [] then Unseen
    else
      var last := stream[|stream| - 1];
      if last.component == id then Belief(last.toStatus, last.reason) else Replay(stream[..|stream| - 1], id)
  }

  ghost predicate Replays(s: State, id: string) {
    id in s.checks ==> Replay(s.stream, id) == Belief(s.checks[id].status, s.checks[id].reason)
  }

  /** Every transition of `id` leaves the status the one before it reached. */
  ghost predicate Chained(stream: seq<Transition>, id: string) {
    forall k: nat | k < |stream| && stream[k].component == id :: stream[k].fromStatus == Replay(stream[..k], id).status
  }

  ghost predicate SequencesIncrease(stream: seq<Transition>) {
    forall i: nat, j: nat | i < j < |stream| :: stream[i].sequence < stream[j].sequence
  }

  predicate Names(call: Call, id: string) { call.Emit? && call.component == id }

  /** No bare event borrows the name of check `id`. */
  predicate NeverEmitted(calls: seq<Call>, id: string) {
    forall k: nat | k < |calls| :: !Names(calls[k], id)
  }

  /** The observations of `id` among `calls`, oldest first. */
  function ObservationsOf(calls: seq<Call>, id: string): seq<Observation> {
    if calls == [] then []
    else
      var last := calls[|calls| - 1];
      ObservationsOf(calls[..|calls| - 1], id) + (if last.Observe? && last.seen.id == id then [last.seen] else [])
  }

  /** Length of the trailing run of failing observations. */
  function FailingRun(seen: seq<Observation>): nat {
    if seen == [] || !Failing(seen[|seen| - 1].status) then 0
    else 1 + FailingRun(seen[..|seen| - 1])
  }

  /** The invariant of the broadcast stream. */
  ghost predicate Ordered(s: State) {
    && s.transitions == WindowOf(s.stream)
    && SequencesIncrease(s.stream)
    && (forall t <- s.stream :: t.sequence <= s.sequence)
  }

  lemma BroadcastOrdered(s: State, t: Transition)
    requires Ordered(s) && t.sequence == s.sequence + 1
    ensures Ordered(Broadcast(s, t))
  {
    var s' := Broadcast(s, t);
    assert s'.stream[..|s'.stream| - 1] == s.stream && s'.stream[|s'.stream| - 1] == t;
    assert forall k: nat | k < |s.stream| :: s'.stream[k] in s.stream;
    assert SequencesIncrease(s'.stream);
  }

  /**
   Over every run: the window is the one the broadcast stream alone determines, and sequence
   numbers strictly increase and never pass the snapshot's own.
   */
  lemma {:induction false} StreamIsOrdered(calls: seq<Call>)
    ensures Ordered(Run(calls))
  {
    if calls != [] {
      var s := Run(calls[..|calls| - 1]);
      StreamIsOrdered(calls[..|calls| - 1]);
      match calls[|calls| - 1]
      case Observe(seen) =>
        if Changed(s, seen) {
          BroadcastOrdered(
            s.(checks := s.checks[seen.id := Recorded(s, seen)], generatedAt := seen.now),
            Transition(s.sequence + 1, seen.now, seen.id, Previous(s, seen).status, seen.status,
                       seen.reason, seen.message, seen.recoveryAttempt));
        }
      case Emit(component, reason, message, now) =>
        BroadcastOrdered(
          s.(generatedAt := now),
          Transition(s.sequence + 1, now, component, Healthy, Healthy, reason, message, None));
      case Mutate(_, _) =>
    }
  }

  /** One call on a state whose log replays for `id`, when the call is not a bare event named `id`. */
  lemma StepReplays(s: State, call: Call, id: string)
    requires Replays(s, id) && Chained(s.stream, id) && !Names(call, id)
    requires id !in s.checks ==> Replay(s.stream, id) == Unseen
    ensures var s' := Step(s, call);
            && Replays(s', id)
            && Chained(s'.stream, id)
            && (id !in s'.checks ==> Replay(s'.stream, id) == Unseen)
  {
    var s' := Step(s, call);
    if s'.stream != s.stream {
      assert s'.stream[..|s.stream|] == s.stream;
      forall k: nat | k < |s'.stream| && s'.stream[k].component == id
        ensures s'.stream[k].fromStatus == Replay(s'.stream[..k], id).status
      {
        if k < |s.stream| { assert s'.stream[..k] == s.stream[..k]; }
      }
    }
  }

  /**
   Over every run in which no bare event is named after check `id`: folding the stream from
   Pending gives the check's current status and reason, and each of its transitions starts where
   the previous one ended.
   */
  lemma {:induction false} LogReplaysToState(calls: seq<Call>, id: string)
    requires NeverEmitted(calls, id)
    ensures var s := Run(calls);
            && Replays(s, id)
            && Chained(s.stream, id)
            && (id !in s.checks ==> Replay(s.stream, id) == Unseen)
  {
    if calls != [] {
      var before := calls[..|calls| - 1];
      assert forall k: nat | k < |before| :: !Names(calls[k], id);
      LogReplaysToState(before, id);
      StepReplays(Run(before), calls[|calls| - 1], id);
    }
  }

  /** A check exists once observed, shows its latest observation, and counts its trailing failures. */
  lemma {:induction false} CheckShowsLatestObservation(calls: seq<Call>, id: string)
    ensures var s := Run(calls);
            var seen := ObservationsOf(calls, id);
            && (id in s.checks <==> seen != [])
            && (id in s.checks ==>
                  var check := s.checks[id];
                  var latest := seen[|seen| - 1];
                  && check.status == latest.status && check.reason == latest.reason && check.message == latest.message
                  && check.impact == latest.impact && check.observedAt == latest.now
                  && check.nextAttempt == latest.nextAttempt
                  && check.consecutiveFailures == Min(FailingRun(seen), U32_MAX))
  {
    if calls != [] {
      var before := calls[..|calls| - 1];
      CheckShowsLatestObservation(before, id);
      var seen := ObservationsOf(calls, id);
      if seen != ObservationsOf(before, id) {
        assert seen[..|seen| - 1] == ObservationsOf(before, id);
      }
    }
  }

  predicate SameReport(a: Observation, b: Observation) { a.status == b.status && a.reason == b.reason }

  /** Observation `k` is the latest to report another status or reason than the one before it. */
  ghost predicate LatestChange(seen: seq<Observation>, k: nat) {
    && k < |seen| && (k == 0 || !SameReport(seen[k - 1], seen[k]))
    && forall l | k < l < |seen| :: SameReport(seen[l - 1], seen[l])
  }

  /** A check changed when the latest of its observations to report something else was made. */
  lemma {:induction false} ChangedAtLatestChange(calls: seq<Call>, id: string) returns (k: nat)
    requires ObservationsOf(calls, id) != []
    ensures LatestChange(ObservationsOf(calls, id), k)
    ensures id in Run(calls).checks && Run(calls).checks[id].changedAt == ObservationsOf(calls, id)[k].now
  {
    var before, last := calls[..|calls| - 1], calls[|calls| - 1];
    var earlier, seen := ObservationsOf(before, id), ObservationsOf(calls, id);
    CheckShowsLatestObservation(before, id);
    if !(last.Observe? && last.seen.id == id) {
      k := ChangedAtLatestChange(before, id);
    } else if earlier == [] {
      k := 0;
    } else {
      assert seen[|earlier|] == last.seen && forall l | 0 <= l < |earlier| :: seen[l] == earlier[l];
      if SameReport(earlier[|earlier| - 1], last.seen) {
        k := ChangedAtLatestChange(before, id);
      } else {
        k := |earlier|;
      }
    }
  }

  // --------------------------------------------------------------------- what is told

  /** What a transition tells, its number aside. */
  datatype Telling = Telling(
    component: string, at: nat, from: CheckStatus, to: CheckStatus, reason: string, message: string,
    recoveryAttempt: Option<nat>)

  function TellingOf(t: Transition): Telling {
    Telling(t.component, t.timestamp, t.fromStatus, t.toStatus, t.reason, t.message, t.recoveryAttempt)
  }

  function LastReport(calls: seq<Call>, id: string): Belief {
    var seen := ObservationsOf(calls, id);
    if seen == [] then Unseen else Belief(seen[|seen| - 1].status, seen[|seen| - 1].reason)
  }

  /** What a call tells someone to whom this was last reported: a report that differs, and any event. */
  function News(call: Call, last: Belief): seq<Telling> {
    match call
    case Observe(seen) =>
      if last == Belief(seen.status, seen.reason) then []
      else [Telling(seen.id, seen.now, last.status, seen.status, seen.reason, seen.message, seen.recoveryAttempt)]
    case Emit(component, reason, message, now) =>
      [Telling(component, now, Healthy, Healthy, reason, message, None)]
    case Mutate(_, _) => []
  }

  function Subject(call: Call): string { if call.Observe? then call.seen.id else "" }

  /** What the calls have to tell, in their own terms. */
  function Told(calls: seq<Call>): seq<Telling> {
    if calls == [] then []
    else
      var before, last := calls[..|calls| - 1], calls[|calls| - 1];
      Told(before) + News(last, LastReport(before, Subject(last)))
  }

  function Bumps(calls: seq<Call>): nat {
    if calls == [] then 0
    else
      var last := calls[|calls| - 1];
      Bumps(calls[..|calls| - 1]) + if last.Mutate? then last.sequenceBumps else 0
  }

  ghost predicate Tells(stream: seq<Transition>, told: seq<Telling>) {
    |stream| == |told| && forall i | 0 <= i < |stream| :: TellingOf(stream[i]) == told[i]
  }

  lemma TellsNext(stream: seq<Transition>, told: seq<Telling>, t: Transition)
    requires Tells(stream, told)
    ensures Tells(stream + [t], told + [TellingOf(t)])
  {
  }

  lemma StepTells(s: State, call: Call, told: seq<Telling>, last: Belief)
    requires Tells(s.stream, told)
    requires call.Observe? ==>
               var previous := Previous(s, call.seen); last == Belief(previous.status, previous.reason)
    ensures Tells(Step(s, call).stream, told + News(call, last))
    ensures Step(s, call).sequence ==
            s.sequence + |News(call, last)| + if call.Mutate? then call.sequenceBumps else 0
  {
    var s' := Step(s, call);
    if News(call, last) == [] {
      assert told + News(call, last) == told;
    } else {
      var t := s'.stream[|s.stream|];
      assert s'.stream == s.stream + [t] && News(call, last) == [TellingOf(t)];
      TellsNext(s.stream, told, t);
    }
  }

  /**
   Over every run the stream tells exactly what the calls have to tell, no more and no less and in
   their order; each telling and each bump takes one number; and the snapshot is as old as the last call.
   */
  lemma {:induction false} StreamIsTold(calls: seq<Call>)
    ensures Tells(Run(calls).stream, Told(calls))
    ensures Run(calls).sequence == |Told(calls)| + Bumps(calls)
    ensures calls != [] ==>
              Run(calls).generatedAt == match calls[|calls| - 1] case Observe(seen) => seen.now
                                                                 case Emit(_, _, _, now) => now
                                                                 case Mutate(_, now) => now
  {
    if calls != [] {
      var before, last := calls[..|calls| - 1], calls[|calls| - 1];
      StreamIsTold(before);
      CheckShowsLatestObservation(before, Subject(last));
      StepTells(Run(before), last, Told(before), LastReport(before, Subject(last)));
    }
  }

  // ------------------------------------------------------------------ bare events

  /**
   A bare event keeps every check's log replayable exactly when it is not named after a check, or
   repeats what that check already shows.
   */
  lemma EmitReplaysIff(s: State, component: string, reason: string, message: string, now: nat)
    requires forall id <- s.checks :: Replays(s, id)
    ensures (forall id <- s.checks :: Replays(AfterEmit(s, component, reason, message, now), id))
            <==> (component in s.checks ==>
                    s.checks[component].status == Healthy && s.checks[component].reason == reason)
  {
    var s' := AfterEmit(s, component, reason, message, now);
    assert s'.stream[..|s.stream|] == s.stream;
    forall id <- s.checks
      ensures Replay(s'.stream, id) == if id == component then Belief(Healthy, reason) else Replay(s.stream, id)
    {
    }
    if component in s.checks && !(s.checks[component].status == Healthy && s.checks[component].reason == reason) {
      assert !Replays(s', component);
    }
  }

  /**
   Appending a transition keeps a log chained exactly when it is another component's or starts
   where the log ended.
   */
  lemma AppendChainsIff(stream: seq<Transition>, t: Transition, id: string)
    ensures Chained(stream + [t], id) <==>
            Chained(stream, id) && (t.component == id ==> t.fromStatus == Replay(stream, id).status)
  {
    var all := stream + [t];
    assert all[..|stream|] == stream && all[|stream|] == t;
    assert forall k: nat | k < |stream| :: all[..k] == stream[..k] && all[k] == stream[k];
    if Chained(all, id) {
      assert t.component == id ==> all[|stream|].fromStatus == Replay(all[..|stream|], id).status;
      forall k: nat | k < |stream| && stream[k].component == id
        ensures stream[k].fromStatus == Replay(stream[..k], id).status
      {
        assert all[k].fromStatus == Replay(all[..k], id).status;
      }
    }
  }

  /** It keeps the chain of its own name exactly when the log last ended Healthy. */
  lemma EmitChainsIff(s: State, component: string, reason: string, message: string, now: nat)
    requires Chained(s.stream, component)
    ensures Chained(AfterEmit(s, component, reason, message, now).stream, component) <==>
            Replay(s.stream, component).status == Healthy
  {
    AppendChainsIff(s.stream, Transition(s.sequence + 1, now, component, Healthy, Healthy, reason, message, None),
                    component);
  }

  /** The log's last status of `id` is the check's, and there is no log before there is a check. */
  predicate StatusAgrees(s: State, id: string) {
    if id in s.checks then Replay(s.stream, id).status == s.checks[id].status else Replay(s.stream, id) == Unseen
  }

  lemma AppendReplay(stream: seq<Transition>, t: Transition, id: string)
    ensures Replay(stream + [t], id) == if t.component == id then Belief(t.toStatus, t.reason) else Replay(stream, id)
  {
    assert (stream + [t])[..|stream|] == stream;
  }

  /** One call: the chain survives it exactly when it is no bare event named `id`, or the check is Healthy. */
  lemma StepChainsIff(s: State, call: Call, id: string)
    requires Chained(s.stream, id) && StatusAgrees(s, id)
    ensures var s' := Step(s, call);
            && (Chained(s'.stream, id) <==> (Names(call, id) ==> id in s.checks && s.checks[id].status == Healthy))
            && (Chained(s'.stream, id) ==> StatusAgrees(s', id))
  {
    var s' := Step(s, call);
    if s'.stream != s.stream {
      var t := s'.stream[|s.stream|];
      assert s'.stream == s.stream + [t];
      AppendChainsIff(s.stream, t, id);
      AppendReplay(s.stream, t, id);
    }
  }

  lemma StepUnchained(s: State, call: Call, id: string)
    requires !Chained(s.stream, id)
    ensures !Chained(Step(s, call).stream, id)
  {
    var s' := Step(s, call);
    if s'.stream != s.stream {
      assert s'.stream == s.stream + [s'.stream[|s.stream|]];
      AppendChainsIff(s.stream, s'.stream[|s.stream|], id);
    }
  }

  /** The latest observation of `id` was Healthy. */
  predicate LastSeenHealthy(calls: seq<Call>, id: string) {
    var seen := ObservationsOf(calls, id);
    seen != [] && seen[|seen| - 1].status == Healthy
  }

  /** The latest observation of `id` was Healthy, for this reason. */
  predicate LastSeenHealthyFor(calls: seq<Call>, id: string, reason: string) {
    LastSeenHealthy(calls, id) && ObservationsOf(calls, id)[|ObservationsOf(calls, id)| - 1].reason == reason
  }

  /** Every bare event named `id` came while `id` was Healthy. */
  predicate EmitsWhileHealthy(calls: seq<Call>, id: string) {
    forall k: nat | k < |calls| && Names(calls[k], id) :: LastSeenHealthy(calls[..k], id)
  }

  /** Every bare event named `id` repeated what the latest observation of `id` reported. */
  predicate EmitsRepeat(calls: seq<Call>, id: string) {
    forall k: nat | k < |calls| && Names(calls[k], id) :: LastSeenHealthyFor(calls[..k], id, calls[k].reason)
  }

  lemma EmitsNext(calls: seq<Call>, id: string)
    requires calls != []
    ensures var before, last := calls[..|calls| - 1], calls[|calls| - 1];
            && (EmitsWhileHealthy(calls, id) <==>
                  EmitsWhileHealthy(before, id) && (Names(last, id) ==> LastSeenHealthy(before, id)))
            && (EmitsRepeat(calls, id) <==>
                  EmitsRepeat(before, id) && (Names(last, id) ==> LastSeenHealthyFor(before, id, last.reason)))
  {
    var n := |calls| - 1;
    assert forall k: nat | k < n :: calls[..n][..k] == calls[..k] && calls[..n][k] == calls[k];
    assert EmitsWhileHealthy(calls, id) ==> EmitsWhileHealthy(calls[..n], id) by {
      if EmitsWhileHealthy(calls, id) {
        forall k: nat | k < n && Names(calls[..n][k], id) ensures LastSeenHealthy(calls[..n][..k], id) {
          assert Names(calls[k], id);
        }
      }
    }
    assert EmitsRepeat(calls, id) ==> EmitsRepeat(calls[..n], id) by {
      if EmitsRepeat(calls, id) {
        forall k: nat | k < n && Names(calls[..n][k], id)
          ensures LastSeenHealthyFor(calls[..n][..k], id, calls[..n][k].reason)
        {
          assert Names(calls[k], id);
        }
      }
    }
  }

  /**
   Over every run: each transition of `id` starts where the previous one ended exactly when every
   bare event named `id` came while the latest observation of `id` was Healthy.
   */
  lemma {:induction false} ChainSurvivesIff(calls: seq<Call>, id: string)
    ensures Chained(Run(calls).stream, id) <==> EmitsWhileHealthy(calls, id)
    ensures Chained(Run(calls).stream, id) ==> StatusAgrees(Run(calls), id)
  {
    if calls != [] {
      var before, last := calls[..|calls| - 1], calls[|calls| - 1];
      ChainSurvivesIff(before, id);
      CheckShowsLatestObservation(before, id);
      EmitsNext(calls, id);
      if Chained(Run(before).stream, id) {
        StepChainsIff(Run(before), last, id);
      } else {
        StepUnchained(Run(before), last, id);
      }
    }
  }

  /** The log of `id` is chained and folds to the check's status and reason. */
  ghost predicate FaithfulNow(s: State, id: string) { Chained(s.stream, id) && Replays(s, id) }

  /** It is so after every call of the run. */
  ghost predicate AlwaysFaithful(calls: seq<Call>, id: string) {
    FaithfulNow(Run(calls), id) && (calls == [] || AlwaysFaithful(calls[..|calls| - 1], id))
  }

  /**
   Over every run: the log of `id` is chained and replays to its check at every moment exactly when
   every bare event named `id` repeated the latest observation of `id`, Healthy and for the same reason.
   */
  lemma {:induction false} LogSurvivesIff(calls: seq<Call>, id: string)
    ensures AlwaysFaithful(calls, id) <==> EmitsRepeat(calls, id)
  {
    if calls != [] {
      var before, last := calls[..|calls| - 1], calls[|calls| - 1];
      var s := Run(before);
      LogSurvivesIff(before, id);
      CheckShowsLatestObservation(before, id);
      EmitsNext(calls, id);
      if AlwaysFaithful(before, id) {
        ChainSurvivesIff(before, id);
        FaithfulStepIff(s, last, id);
      }
    }
  }

  lemma FaithfulStepIff(s: State, call: Call, id: string)
    requires Chained(s.stream, id) && StatusAgrees(s, id) && Replays(s, id)
    ensures FaithfulNow(Step(s, call), id) <==>
            (Names(call, id) ==> id in s.checks && s.checks[id].status == Healthy && s.checks[id].reason == call.reason)
  {
    var s' := Step(s, call);
    StepChainsIff(s, call, id);
    if s'.stream != s.stream {
      assert s'.stream == s.stream + [s'.stream[|s.stream|]];
      AppendReplay(s.stream, s'.stream[|s.stream|], id);
    }
  }

  /**
   Replay is not unconditional: a forwarding client whose usage identity is "dnat" makes the
   port-change event share its name with the "port_forward.dnat" check.
   */
  lemma EmitCanBreakReplay()
    ensures exists calls: seq<Call>, id: string :: id in Run(calls).checks && !Replays(Run(calls), id)
  {
    var id := "port_forward.dnat";
    var seen := Observation(id, Healthy, Optional, "port_forward.dnat_installed", "", None, None, 0);
    var first := [Observe(seen)];
    var calls := first + [Emit(id, "port_forward.port_changed", "", 1)];
    assert first[..0] == [] && calls[..1] == first;
    assert Run(first[..0]) == Initial;
    var s := AfterObserve(Initial, seen);
    assert Run(first) == s;
    var after := AfterEmit(s, id, "port_forward.port_changed", "", 1);
    assert Run(calls) == after;
    assert after.stream[|after.stream| - 1].reason == "port_forward.port_changed";
    assert "port_forward.port_changed"[13] != "port_forward.dnat_installed"[13];
    assert id in Run(calls).checks && !Replays(Run(calls), id);
  }

  /**
   Nor is the chain: a usage called "verification" makes that event share its name with a check that
   may be failing or degraded, and the event then leaves a status the log never reached.
   */
  lemma EmitCanBreakChain(seen: Observation, reason: string, message: string, now: nat)
    requires seen.status != Healthy
    ensures !Chained(Run([Observe(seen), Emit(seen.id, reason, message, now)]).stream, seen.id)
  {
    var calls := [Observe(seen), Emit(seen.id, reason, message, now)];
    assert calls[..1] == [Observe(seen)];
    assert ObservationsOf(calls[..1], seen.id) == [seen] by { assert calls[..1][..0] == []; }
    assert Names(calls[1], seen.id) && !LastSeenHealthy(calls[..1], seen.id);
    ChainSurvivesIff(calls, seen.id);
  }
}
