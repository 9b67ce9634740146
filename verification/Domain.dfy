/** The records of the canonical snapshot that the window and the publisher share. */
module Domain {

  import opened Basics

  /** Slots in the bounded transition window. */
  const TRANSITION_CAPACITY: nat := 200

  datatype CheckStatus = Pending | Healthy | Degraded | Failed | Unknown

  datatype Impact = Critical | Advisory | Optional

  datatype SubsystemCheck = SubsystemCheck(
    id: string,
    status: CheckStatus,
    impact: Impact,
    observedAt: nat,
    changedAt: nat,
    reason: string,
    message: string,
    consecutiveFailures: nat,
    nextAttempt: Option<nat>)

  datatype Transition = Transition(
    sequence: nat,
    timestamp: nat,
    component: string,
    fromStatus: CheckStatus,
    toStatus: CheckStatus,
    reason: string,
    message: string,
    recoveryAttempt: Option<nat>)
}
