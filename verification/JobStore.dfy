/**
 Job storage as a value: jobs, their event history, the operations they drive and the outbox.
 Every repository call is one step here; the step invariant ties the four maps together.
 */
module JobStore {
  import opened Base
  import opened JobModel

  /** Event and outbox identifiers are digests of job and version; equal digests mean equal pairs. */
  datatype EventKey = EventKey(jobId: string, version: int)

  datatype Event = Event(
    jobId: string, version: int, kind: EventKind, from: Status, to: Status, reason: string, at: Time)

  datatype OutboxRow = OutboxRow(
    aggregateId: string, kind: EventKind, version: int, operationId: string, status: Status, availableAt: Time)

  datatype OperationStatus = OpAccepted | OpRunning | OpSucceeded | OpFailed | OpCanceled

  datatype Operation = Operation(
    id: string, status: OperationStatus, errorType: string, updatedAt: Time, completedAt: Option<Time>)

  const NO_OPERATION := Operation("", OpAccepted, "", ZERO_TIME, None)

  datatype Store = Store(
    jobs: map<string, Job>, events: map<EventKey, Event>,
    operations: map<string, Operation>, outbox: map<EventKey, OutboxRow>)

  datatype Error =
    | InvalidTransition | LeaseNotReclaimable | InvalidEventState
    | EventExists | OutboxExists | OperationMissing | NotCancelable
    | InvalidAdmission | CapacityExceeded | AlreadyExists | BudgetExceeded

  /** A changed job with the event and outbox row that record the change. */
  datatype Change = Change(job: Job, event: Event, outbox: OutboxRow)

  function KeyOf(job: Job): EventKey { EventKey(job.id, job.statusVersion) }

  function EventRecords(job: Job, from: Status, reason: string, kind: Option<EventKind>, at: Time)
    : Result<Change, Error>
  {
    if kind.None? || job.statusVersion <= 0 then Failure(InvalidEventState)
    else Success(Change(
      job,
      Event(job.id, job.statusVersion, kind.value, from, job.status, reason, at),
      OutboxRow(job.id, kind.value, job.statusVersion, job.operationId, job.status, at)))
  }

  function PrepareTransition(job: Job, to: Status, reason: string, at: Time): Result<Change, Error>
  {
    if !TransitionAllowed(job.status, to, reason) then Failure(InvalidTransition)
    else
      var moved := job.(status := to, statusVersion := job.statusVersion + 1, updatedAt := at,
                        errorType := if to == Failed || to == Unknown then reason else "");
      var unleased := if to == Dispatching then moved else moved.(leaseUntil := None, leaseToken := "", workerId := "");
      var eligible := if to == Queued then unleased.(nextEligibleAt := at) else unleased;
      var done := if Terminal(to) && to != Expired then eligible.(completedAt := Some(at)) else eligible;
      EventRecords(done, job.status, reason, EventKindOf(to), at)
  }

  function PrepareReassignment(job: Job, at: Time): Result<Change, Error>
  {
    if job.status != Dispatching || job.leaseUntil.None? || job.leaseUntil.value > at then Failure(LeaseNotReclaimable)
    else
      EventRecords(job.(statusVersion := job.statusVersion + 1, updatedAt := at),
                   Dispatching, "lease_expired", Some(EventLeaseReassigned), at)
  }

  function PrepareClaim(job: Job, at: Time): Result<Change, Error>
  {
    if job.status == Dispatching then PrepareReassignment(job, at)
    else PrepareTransition(job, Dispatching, "", at)
  }

  predicate OutboxInsertable(outbox: map<EventKey, OutboxRow>, key: EventKey, row: OutboxRow)
  {
    && key !in outbox
    && forall k | k in outbox ::
         !(outbox[k].aggregateId == row.aggregateId && outbox[k].kind == row.kind && outbox[k].version == row.version)
  }

  function OperationStatusFor(status: Status): OperationStatus
  {
    if status == Succeeded then OpSucceeded else if status == Canceled then OpCanceled else OpFailed
  }

  /** How one job status moves the status of the operation behind it. */
  function ProjectStatus(op: OperationStatus, status: Status): OperationStatus
  {
    match status
    case Dispatching | Running | Canceling | Unknown => if op == OpAccepted then OpRunning else op
    case Succeeded | Failed | Canceled => if op == OpAccepted || op == OpRunning then OperationStatusFor(status) else op
    case _ => op
  }

  function ApplyOperationStatus(op: Operation, status: Status, errorType: string, at: Time): Operation
  {
    if op.id == "" then op
    else
      match status
      case Dispatching | Running | Canceling | Unknown =>
        if op.status == OpAccepted then op.(status := OpRunning, updatedAt := at) else op
      case Succeeded | Failed | Canceled =>
        if op.status != OpAccepted && op.status != OpRunning then op
        else op.(status := OperationStatusFor(status), errorType := errorType, updatedAt := at, completedAt := Some(at))
      case _ => op
  }

  function Recorded(s: Store, c: Change, at: Time): Store
  {
    var op := if c.job.operationId in s.operations then s.operations[c.job.operationId] else NO_OPERATION;
    var applied := ApplyOperationStatus(op, c.job.status, c.job.errorType, at);
    Store(s.jobs[c.job.id := c.job], s.events[KeyOf(c.job) := c.event],
          s.operations[applied.id := applied], s.outbox[KeyOf(c.job) := c.outbox])
  }

  /** Guards every single-job change shares: no event or outbox collision, and the operation exists. */
  function Guarded(s: Store, change: Result<Change, Error>): Result<Option<Change>, Error>
  {
    match change
    case Failure(e) => Failure(e)
    case Success(c) =>
      if KeyOf(c.job) in s.events then Failure(EventExists)
      else if !OutboxInsertable(s.outbox, KeyOf(c.job), c.outbox) then Failure(OutboxExists)
      else if c.job.operationId !in s.operations then Failure(OperationMissing)
      else Success(Some(c))
  }

  predicate Fenced(s: Store, id: string, version: int, fence: int)
  {
    id in s.jobs && s.jobs[id].statusVersion == version &&
        (s.jobs[id].fenceToken <= 0 || s.jobs[id].fenceToken == fence)
  }

  function Transition(s: Store, id: string, version: int, fence: int, to: Status, reason: string, at: Time)
    : Result<Option<Change>, Error>
  {
    if !Fenced(s, id, version, fence) then Success(None)
    else Guarded(s, PrepareTransition(s.jobs[id], to, reason, at))
  }

  function Requeue(s: Store, id: string, version: int, fence: int, reason: string, next: Time, at: Time)
    : Result<Option<Change>, Error>
  {
    if !Fenced(s, id, version, fence) then Success(None)
    else
      match PrepareTransition(s.jobs[id], Queued, reason, at)
      case Failure(e) => Failure(e)
      case Success(c) => Guarded(s, Success(c.(job := c.job.(nextEligibleAt := if next > at then next else at))))
  }

  /** Cancellation by the owner or an administrator; a dispatched job is fenced off at once. */
  function Cancel(s: Store, id: string, allowed: bool, reason: string, at: Time): Result<Option<Change>, Error>
  {
    if id !in s.jobs || !allowed then Success(None)
    else
      var job := s.jobs[id];
      match job.status
      case Canceling | Canceled => Success(None)
      case Succeeded | Failed | Unknown | Expired => Failure(NotCancelable)
      case _ =>
        match PrepareTransition(job, if job.status == Accepted || job.status == Queued then Canceled
            else Canceling, reason, at)
        case Failure(e) => Failure(e)
        case Success(c) =>
          var raised := c.job.(fenceToken := c.job.fenceToken + 1);
          Guarded(s, Success(c.(job := if job.status == Dispatching then raised else c.job)))
  }

  predicate Extendable(s: Store, id: string, version: int, fence: int, token: string, until: Time, at: Time)
  {
    && until > at && token != "" && id in s.jobs
    && var job := s.jobs[id];
       && job.status == Dispatching && job.statusVersion == version && job.fenceToken == fence
       && job.leaseUntil.Some? && job.leaseUntil.value > at && job.leaseToken == token
  }

  function Extended(job: Job, until: Time, at: Time): Job
    requires job.leaseUntil.Some?
  {
    if until <= job.leaseUntil.value then job
    else job.(leaseUntil := Some(until), updatedAt := if at > job.updatedAt then at else job.updatedAt)
  }

  function Extend(s: Store, id: string, version: int, fence: int, token: string, until: Time, at: Time): Store
  {
    if !Extendable(s, id, version, fence, token, until, at) then s
    else s.(jobs := s.jobs[id := Extended(s.jobs[id], until, at)])
  }

  // ---- Claims ----

  datatype Lease = Lease(until: Time, worker: string, token: string)

  function Leased(c: Change, lease: Lease): Change
  {
    c.(job := c.job.(fenceToken := c.job.fenceToken + 1, leaseUntil := Some(lease.until),
                     leaseToken := lease.token, workerId := lease.worker))
  }

  datatype ClaimOutcome = ClaimOutcome(store: Store, claimed: seq<Job>, error: Option<Error>)

  /** Claim the ranked jobs one after the other; an error leaves the earlier claims in place. */
  function ClaimAll(s: Store, picks: seq<Job>, now: Time, lease: Lease, done: seq<Job>): ClaimOutcome
    decreases |picks|
  {
    if picks == [] then ClaimOutcome(s, done, None)
    else
      match PrepareClaim(picks[0], now)
      case Failure(e) => ClaimOutcome(s, [], Some(e))
      case Success(prepared) =>
        var c := Leased(prepared, lease);
        if KeyOf(c.job) in s.events then ClaimOutcome(s, [], Some(EventExists))
        else if !OutboxInsertable(s.outbox, KeyOf(c.job), c.outbox) then ClaimOutcome(s, [], Some(OutboxExists))
        else ClaimAll(Recorded(s, c, now), picks[1..], now, lease, done + [c.job])
  }

  /** What a claim makes of a ready job. */
  function ClaimedJob(job: Job, now: Time, lease: Lease): Job
  {
    job.(status := Dispatching, statusVersion := job.statusVersion + 1, updatedAt := now,
         errorType := if job.status == Dispatching then job.errorType else "",
         fenceToken := job.fenceToken + 1, leaseUntil := Some(lease.until),
         leaseToken := lease.token, workerId := lease.worker)
  }

  // ---- The storage invariant ----

  /** A recorded step is an allowed transition with its event type, or a lease reassignment. */
  predicate LegalEvent(e: Event)
  {
    || (TransitionAllowed(e.from, e.to, e.reason) && EventKindOf(e.to) == Some(e.kind))
    || (e.kind == EventLeaseReassigned && e.from == Dispatching && e.to == Dispatching)
  }

  ghost predicate PathStep(events: map<EventKey, Event>, id: string, n: nat)
  {
    && n >= 1 && EventKey(id, n) in events
    && var e := events[EventKey(id, n)];
    && e.jobId == id && e.version == n && LegalEvent(e)
    && (if n == 1 then e.from == Accepted
        else EventKey(id, n - 1) in events && e.from == events[EventKey(id, n - 1)].to)
  }

  /** Events 1..n of a job exist and form a connected path that starts at acceptance. */
  ghost predicate Path(events: map<EventKey, Event>, id: string, n: nat)
  {
    n == 0 || (PathStep(events, id, n) && Path(events, id, n - 1))
  }

  ghost function Projection(events: map<EventKey, Event>, id: string, n: nat): OperationStatus
    requires Path(events, id, n)
  {
    if n == 0 then OpAccepted
    else ProjectStatus(Projection(events, id, n - 1), events[EventKey(id, n)].to)
  }

  ghost predicate JobHistory(s: Store, job: Job)
  {
    && job.id != "" && job.statusVersion >= 1
    && Path(s.events, job.id, job.statusVersion)
    && s.events[EventKey(job.id, job.statusVersion)].to == job.status
    && job.operationId != "" && job.operationId in s.operations
    && s.operations[job.operationId].id == job.operationId
    && s.operations[job.operationId].status == Projection(s.events, job.id, job.statusVersion)
  }

  ghost predicate HistoriesConnected(s: Store)
  {
    forall id :: id in s.jobs ==> s.jobs[id].id == id && JobHistory(s, s.jobs[id])
  }

  ghost predicate EventsBounded(s: Store)
  {
    forall k :: k in s.events ==> k.jobId in s.jobs && 1 <= k.version <= s.jobs[k.jobId].statusVersion
  }

  ghost predicate OutboxMirrorsEvents(s: Store)
  {
    forall k :: k in s.outbox ==>
        k in s.events && s.outbox[k].aggregateId == k.jobId && s.outbox[k].version == k.version
  }

  ghost predicate OperationsDistinct(jobs: map<string, Job>)
  {
    forall a, b :: a in jobs && b in jobs && jobs[a].operationId == jobs[b].operationId ==> a == b
  }

  ghost predicate Consistent(s: Store)
  {
    HistoriesConnected(s) && EventsBounded(s) && OutboxMirrorsEvents(s) && OperationsDistinct(s.jobs)
  }

  lemma {:induction false} PathFrame(events: map<EventKey, Event>, k: EventKey, e: Event, id: string, n: nat)
    requires Path(events, id, n)
    requires k.jobId != id || k.version > n
    ensures Path(events[k := e], id, n)
    ensures Projection(events[k := e], id, n) == Projection(events, id, n)
  {
    if n != 0 {
      PathFrame(events, k, e, id, n - 1);
    }
  }

  /** In a consistent store the next version of a job is always free. */
  lemma NextIsFree(s: Store, job: Job, row: OutboxRow)
    requires Consistent(s) && job.id in s.jobs
    requires job.statusVersion == s.jobs[job.id].statusVersion + 1
    requires row.aggregateId == job.id && row.version == job.statusVersion
    ensures KeyOf(job) !in s.events && OutboxInsertable(s.outbox, KeyOf(job), row)
  {
    forall k | k in s.outbox
      ensures !(s.outbox[k].aggregateId == row.aggregateId && s.outbox[k].kind == row.kind &&
                s.outbox[k].version == row.version)
    {
      assert k in s.events;
    }
  }

  /** A change that follows the job's current state: next version, legal event from its status. */
  ghost predicate Follows(s: Store, c: Change)
  {
    && c.job.id in s.jobs
    && var was := s.jobs[c.job.id];
       && c.job.statusVersion == was.statusVersion + 1 && c.job.operationId == was.operationId
       && c.event.jobId == c.job.id && c.event.version == c.job.statusVersion
       && c.event.from == was.status && c.event.to == c.job.status && LegalEvent(c.event)
       && c.outbox.aggregateId == c.job.id && c.outbox.version == c.job.statusVersion
  }

  lemma OtherHistoryKept(s: Store, c: Change, at: Time, id: string)
    requires Consistent(s) && Follows(s, c) && id in s.jobs && id != c.job.id
    ensures JobHistory(Recorded(s, c, at), s.jobs[id])
  {
    hide LegalEvent, ApplyOperationStatus, ProjectStatus, EventsBounded, OutboxMirrorsEvents;
    HistoryOf(s, c.job.id);
    OperationProjected(s.operations[s.jobs[c.job.id].operationId], c.job.status, c.job.errorType, at);
    PathFrame(s.events, KeyOf(c.job), c.event, id, s.jobs[id].statusVersion);
    assert s.jobs[id].operationId != s.jobs[c.job.id].operationId;
  }

  lemma OperationProjected(op: Operation, status: Status, errorType: string, at: Time)
    requires op.id != ""
    ensures ApplyOperationStatus(op, status, errorType, at).id == op.id
    ensures ApplyOperationStatus(op, status, errorType, at).status == ProjectStatus(op.status, status)
  {
  }

  lemma OwnHistoryExtended(s: Store, c: Change, at: Time)
    requires Consistent(s) && Follows(s, c)
    ensures JobHistory(Recorded(s, c, at), c.job)
  {
    hide ApplyOperationStatus, ProjectStatus, LegalEvent, Consistent;
    var was := s.jobs[c.job.id];
    assert JobHistory(s, was) && was.id == c.job.id by { HistoryOf(s, c.job.id); }
    PathFrame(s.events, KeyOf(c.job), c.event, c.job.id, was.statusVersion);
    OperationProjected(s.operations[was.operationId], c.job.status, c.job.errorType, at);
  }

  lemma HistoryOf(s: Store, id: string)
    requires Consistent(s) && id in s.jobs
    ensures s.jobs[id].id == id && JobHistory(s, s.jobs[id])
    ensures s.jobs[id].statusVersion >= 1
  {
  }

  lemma HistoriesKept(s: Store, c: Change, at: Time)
    requires Consistent(s) && Follows(s, c)
    ensures HistoriesConnected(Recorded(s, c, at))
  {
    hide JobHistory, LegalEvent, ApplyOperationStatus;
    var t := Recorded(s, c, at);
    forall id | id in t.jobs
      ensures t.jobs[id].id == id && JobHistory(t, t.jobs[id])
    {
      if id == c.job.id {
        OwnHistoryExtended(s, c, at);
      } else {
        OtherHistoryKept(s, c, at, id);
        assert s.jobs[id].id == id;
      }
    }
  }

  /** Recording a change that follows the store keeps history, projection and outbox in step. */
  lemma RecordedConsistent(s: Store, c: Change, at: Time)
    requires Consistent(s) && Follows(s, c)
    ensures Consistent(Recorded(s, c, at))
  {
    hide JobHistory, HistoriesConnected, LegalEvent, ApplyOperationStatus;
    HistoriesKept(s, c, at);
    HistoryOf(s, c.job.id);
  }
}
