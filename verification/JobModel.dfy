/** The durable job record, its status machine and the records written with each change. */
module JobModel {
  import opened Base

  datatype Status =
    | Accepted | Queued | Dispatching | Running | Canceling
    | Canceled | Succeeded | Failed | Unknown | Expired

  datatype EventKind =
    | EventQueued | EventScheduled | EventRunning | EventCancelling | EventCancelled
    | EventCompleted | EventFailed | EventUnknown | EventExpired | EventLeaseReassigned

  /** The six columns that identify the principal a job runs for. */
  datatype Scope = Scope(
    applicationId: string, credentialSource: string, integrationId: string,
    principalType: string, principalId: string, externalSubject: string)

  datatype Job = Job(
    id: string, operationId: string, scope: Scope, credentialId: string,
    operation: string, idempotencyKey: string, fingerprint: string,
    status: Status, statusVersion: int, priority: int,
    nextEligibleAt: Time, leaseUntil: Option<Time>, leaseToken: string, workerId: string,
    fenceToken: int, errorType: string,
    createdAt: Time, updatedAt: Time, completedAt: Option<Time>)

  const PROVEN_NOT_CREATED := "proven_not_created"

  predicate TransitionAllowed(from: Status, to: Status, reason: string)
  {
    match from
    case Accepted => to == Queued || to == Canceled
    case Queued => to == Dispatching || to == Canceled
    case Dispatching => to == Queued || to == Running || to == Unknown || to == Canceling
    case Running => to == Succeeded || to == Failed || to == Canceling || to == Unknown
    case Canceling => to == Canceled || to == Succeeded || to == Failed
    case Unknown =>
      if to == Queued then reason == PROVEN_NOT_CREATED
      else to == Running || to == Succeeded || to == Failed
    case Succeeded => to == Expired
    case Failed => to == Expired
    case Canceled => to == Expired
    case Expired => false
  }

  function EventKindOf(status: Status): Option<EventKind>
  {
    match status
    case Accepted => None
    case Queued => Some(EventQueued)
    case Dispatching => Some(EventScheduled)
    case Running => Some(EventRunning)
    case Canceling => Some(EventCancelling)
    case Canceled => Some(EventCancelled)
    case Succeeded => Some(EventCompleted)
    case Failed => Some(EventFailed)
    case Unknown => Some(EventUnknown)
    case Expired => Some(EventExpired)
  }

  predicate Terminal(status: Status)
  {
    status == Succeeded || status == Failed || status == Canceled || status == Expired
  }

  /** Joined with NUL, the way the fairness and index keys are built. */
  function PrincipalKey(scope: Scope): string
  {
    scope.applicationId + ("\0" + (scope.credentialSource + ("\0" + (scope.integrationId + ("\0" +
    (scope.principalType + ("\0" + (scope.principalId + ("\0" + scope.externalSubject)))))))))
  }

  predicate NulFree(s: string) { '\0' !in s }

  predicate NulFreeScope(scope: Scope)
  {
    && NulFree(scope.applicationId) && NulFree(scope.credentialSource) && NulFree(scope.integrationId)
    && NulFree(scope.principalType) && NulFree(scope.principalId) && NulFree(scope.externalSubject)
  }

  lemma SplitAtNul(a: string, x: string, b: string, y: string)
    requires NulFree(a) && NulFree(b)
    requires a + ("\0" + x) == b + ("\0" + y)
    ensures a == b && x == y
  {
    var l, r := a + ("\0" + x), b + ("\0" + y);
    assert l[|a|] == '\0' && r[|b|] == '\0';
    assert forall i :: 0 <= i < |a| ==> l[i] == a[i];
    assert forall i :: 0 <= i < |b| ==> r[i] == b[i];
    assert a == l[..|a|] && b == r[..|b|];
    assert x == l[|a| + 1..] && y == r[|b| + 1..];
  }

  /** On NUL-free columns the joined key identifies the principal. */
  lemma PrincipalKeyInjective(a: Scope, b: Scope)
    requires NulFreeScope(a) && NulFreeScope(b)
    requires PrincipalKey(a) == PrincipalKey(b)
    ensures a == b
  {
    var a4, b4 := a.principalId + ("\0" + a.externalSubject), b.principalId + ("\0" + b.externalSubject);
    var a3, b3 := a.principalType + ("\0" + a4), b.principalType + ("\0" + b4);
    var a2, b2 := a.integrationId + ("\0" + a3), b.integrationId + ("\0" + b3);
    var a1, b1 := a.credentialSource + ("\0" + a2), b.credentialSource + ("\0" + b2);
    assert PrincipalKey(a) == a.applicationId + ("\0" + a1);
    assert PrincipalKey(b) == b.applicationId + ("\0" + b1);
    SplitAtNul(a.applicationId, a1, b.applicationId, b1);
    SplitAtNul(a.credentialSource, a2, b.credentialSource, b2);
    SplitAtNul(a.integrationId, a3, b.integrationId, b3);
    SplitAtNul(a.principalType, a4, b.principalType, b4);
    SplitAtNul(a.principalId, a.externalSubject, b.principalId, b.externalSubject);
  }

  /** A queued job waits for its eligibility time, a dispatched one for its lease to run out. */
  predicate ReadyForClaim(job: Job, now: Time)
  {
    if job.status == Queued then
      job.nextEligibleAt <= now && (job.leaseUntil.None? || job.leaseUntil.value <= now)
    else
      job.status == Dispatching && job.leaseUntil.Some? && job.leaseUntil.value <= now
  }
}
