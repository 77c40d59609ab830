/**
 Every run of the job store: each repository call is one step, taken at a clock reading that
 never goes back. The store invariant, fencing and lease laws hold in all reachable states.
 */
module JobSteps {
  import opened Base
  import opened JobModel
  import opened FairQueue
  import opened JobStore

  // ---- Each prepared change follows the stored job ----

  lemma TransitionFollows(s: Store, id: string, to: Status, reason: string, at: Time)
    requires Consistent(s) && id in s.jobs
    requires TransitionAllowed(s.jobs[id].status, to, reason)
    ensures PrepareTransition(s.jobs[id], to, reason, at).Success?
    ensures var c := PrepareTransition(s.jobs[id], to, reason, at).value;
            Follows(s, c) && c.job.id == id && c.job.fenceToken == s.jobs[id].fenceToken &&
                c.job.operationId in s.operations
  {
    hide Consistent, JobHistory;
    HistoryOf(s, id);
    OperationKnown(s, id);
  }

  /** No change of a consistent store can collide with a recorded event, outbox row or lost operation. */
  lemma NoCollision(s: Store, c: Change)
    requires Consistent(s) && Follows(s, c)
    ensures Guarded(s, Success(c)) == Success(Some(c))
  {
    hide JobHistory, LegalEvent;
    NextIsFree(s, c.job, c.outbox);
    HistoryOf(s, c.job.id);
    OperationKnown(s, c.job.id);
  }

  lemma OperationKnown(s: Store, id: string)
    requires Consistent(s) && id in s.jobs
    ensures s.jobs[id].operationId in s.operations
  {
    HistoryOf(s, id);
  }

  // ---- Claims ----

  ghost function Ids(picks: seq<Job>): set<string> { set j | j in picks :: j.id }

  ghost function AfterClaims(jobs: map<string, Job>, ids: set<string>, now: Time, lease: Lease): map<string, Job>
  {
    map id | id in jobs :: if id in ids then ClaimedJob(jobs[id], now, lease) else jobs[id]
  }

  ghost predicate Claimable(s: Store, picks: seq<Job>, now: Time)
  {
    && DistinctSeq(picks)
    && forall i :: 0 <= i < |picks| ==>
         picks[i].id in s.jobs && s.jobs[picks[i].id] == picks[i] && ReadyForClaim(picks[i], now)
  }

  lemma ClaimFollows(s: Store, id: string, now: Time, lease: Lease)
    requires Consistent(s) && id in s.jobs && ReadyForClaim(s.jobs[id], now)
    ensures PrepareClaim(s.jobs[id], now).Success?
    ensures var c := Leased(PrepareClaim(s.jobs[id], now).value, lease);
            Follows(s, c) && c.job == ClaimedJob(s.jobs[id], now, lease)
  {
    hide Consistent;
    HistoryOf(s, id);
  }

  function Claimed(picks: seq<Job>, now: Time, lease: Lease): seq<Job>
  {
    seq(|picks|, i requires 0 <= i < |picks| => ClaimedJob(picks[i], now, lease))
  }

  /** A claim batch over ready jobs never aborts and changes exactly the picked jobs. */
  lemma {:induction false} ClaimBatch(s: Store, picks: seq<Job>, now: Time, lease: Lease, done: seq<Job>)
    requires Consistent(s) && Claimable(s, picks, now)
    ensures var r := ClaimAll(s, picks, now, lease, done);
            && r.error == None && r.claimed == done + Claimed(picks, now, lease)
            && r.store.jobs == AfterClaims(s.jobs, Ids(picks), now, lease)
            && Consistent(r.store)
    decreases |picks|
  {
    if picks == [] {
      assert AfterClaims(s.jobs, Ids(picks), now, lease) == s.jobs;
      assert done + Claimed(picks, now, lease) == done;
    } else {
      ClaimBatchStep(s, picks, now, lease, done);
    }
  }

  lemma FirstClaimable(s: Store, picks: seq<Job>, now: Time)
    requires Claimable(s, picks, now) && picks != []
    ensures picks[0].id in s.jobs && s.jobs[picks[0].id] == picks[0] && ReadyForClaim(picks[0], now)
    ensures picks[0].id !in Ids(picks[1..])
  {
    hide ReadyForClaim;
  }

  lemma RestClaimable(s: Store, t: Store, picks: seq<Job>, claimed: Job, now: Time)
    requires Claimable(s, picks, now) && picks != [] && t.jobs == s.jobs[picks[0].id := claimed]
    ensures Claimable(t, picks[1..], now)
  {
    hide ReadyForClaim;
  }

  lemma RecordedJobs(s: Store, c: Change, at: Time)
    ensures Recorded(s, c, at).jobs == s.jobs[c.job.id := c.job]
  {
    hide ApplyOperationStatus;
  }

  lemma ClaimKeepsId(job: Job, now: Time, lease: Lease)
    ensures ClaimedJob(job, now, lease).id == job.id
    ensures lease.until > now ==> !ReadyForClaim(ClaimedJob(job, now, lease), now)
  {
  }

  lemma {:induction false} ClaimBatchStep(s: Store, picks: seq<Job>, now: Time, lease: Lease, done: seq<Job>)
    requires Consistent(s) && Claimable(s, picks, now) && picks != []
    ensures var r := ClaimAll(s, picks, now, lease, done);
            && r.error == None && r.claimed == done + Claimed(picks, now, lease)
            && r.store.jobs == AfterClaims(s.jobs, Ids(picks), now, lease)
            && Consistent(r.store)
    decreases |picks|, 0
  {
    hide Consistent, Follows, ReadyForClaim, PrepareClaim, OutboxInsertable, ClaimedJob, Recorded, Claimable;
    FirstClaimable(s, picks, now);
    var id := picks[0].id;
    assert s.jobs[id] == picks[0];
    ClaimFollows(s, id, now, lease);
    var c := Leased(PrepareClaim(s.jobs[id], now).value, lease);
    NoCollision(s, c);
    RecordedConsistent(s, c, now);
    var t := Recorded(s, c, now);
    RecordedJobs(s, c, now);
    ClaimKeepsId(picks[0], now, lease);
    RestClaimable(s, t, picks, ClaimedJob(picks[0], now, lease), now);
    ClaimBatch(t, picks[1..], now, lease, done + [c.job]);
    assert (done + [c.job]) + Claimed(picks[1..], now, lease) == done + Claimed(picks, now, lease);
    assert picks == [picks[0]] + picks[1..];
    assert Ids(picks) == Ids(picks[1..]) + {id};
    assert AfterClaims(t.jobs, Ids(picks[1..]), now, lease) == AfterClaims(s.jobs, Ids(picks), now, lease);
  }

  // ---- Runs ----

  datatype Step =
    | Create(operation: Operation, job: Job, at: Time)
    | Claim(picks: seq<Job>, lease: Lease, at: Time)
    | ExtendLease(id: string, version: int, fence: int, token: string, until: Time, at: Time)
    | Move(id: string, version: int, fence: int, to: Status, reason: string, at: Time)
    | Retry(id: string, version: int, fence: int, reason: string, next: Time, at: Time)
    | Abandon(id: string, allowed: bool, reason: string, at: Time)

  /** The job an admission builds: owned, queued, version one, never claimed, eligible at once. */
  predicate Fresh(operation: Operation, job: Job, at: Time)
  {
    && operation.id != "" && operation.id == job.operationId && operation.status == OpAccepted
    && job.id != "" && job.status == Queued && job.statusVersion == 1 && job.fenceToken == 0
    && job.leaseUntil.None? && job.leaseToken == "" && job.createdAt == at && job.nextEligibleAt == at
    && at != ZERO_TIME && job.scope.applicationId != "" && job.scope.principalId != ""
  }

  predicate Creatable(s: Store, operation: Operation, job: Job)
  {
    operation.id !in s.operations && job.id !in s.jobs && KeyOf(job) !in s.events
  }

  function Created(s: Store, operation: Operation, job: Job, at: Time): Store
  {
    var c := EventRecords(job, Accepted, "", EventKindOf(job.status), at);
    if c.Failure? then s
    else
      Store(s.jobs[job.id := job], s.events[KeyOf(job) := c.value.event],
            s.operations[operation.id := operation], s.outbox[KeyOf(job) := c.value.outbox])
  }

  function RecordedIf(s: Store, r: Result<Option<Change>, Error>, at: Time): Store
  {
    if r.Success? && r.value.Some? then Recorded(s, r.value.value, at) else s
  }

  function Apply(s: Store, step: Step): Store
  {
    match step
    case Create(operation, job, at) =>
      if Creatable(s, operation, job) then Created(s, operation, job, at) else s
    case Claim(picks, lease, at) => ClaimAll(s, picks, at, lease, []).store
    case ExtendLease(id, version, fence, token, until, at) => Extend(s, id, version, fence, token, until, at)
    case Move(id, version, fence, to, reason, at) =>
      RecordedIf(s, Transition(s, id, version, fence, to, reason, at), at)
    case Retry(id, version, fence, reason, next, at) =>
      RecordedIf(s, Requeue(s, id, version, fence, reason, next, at), at)
    case Abandon(id, allowed, reason, at) => RecordedIf(s, Cancel(s, id, allowed, reason, at), at)
  }

  /** Steps the program takes: admissions of fresh jobs, claims of ready jobs under a real lease, anything else. */
  ghost predicate Enabled(s: Store, step: Step)
  {
    match step
    case Create(operation, job, at) => Fresh(operation, job, at)
    case Claim(picks, lease, at) => Claimable(s, picks, at) && lease.until > at && lease.token != ""
    case _ => true
  }

  lemma {:induction false} PathOfNewJob(events: map<EventKey, Event>, k: EventKey, e: Event, id: string)
    requires k == EventKey(id, 1) && e.jobId == id && e.version == 1 && e.from == Accepted && LegalEvent(e)
    ensures Path(events[k := e], id, 1)
    ensures Projection(events[k := e], id, 1) == ProjectStatus(OpAccepted, e.to)
  {
    assert Path(events[k := e], id, 0);
  }

  lemma CreatedHistories(s: Store, operation: Operation, job: Job, at: Time)
    requires Consistent(s) && Fresh(operation, job, at) && Creatable(s, operation, job)
    ensures HistoriesConnected(Created(s, operation, job, at))
  {
    hide Consistent;
    var t := Created(s, operation, job, at);
    forall id | id in t.jobs
      ensures t.jobs[id].id == id && JobHistory(t, t.jobs[id])
    {
      if id == job.id {
        PathOfNewJob(s.events, KeyOf(job), t.events[KeyOf(job)], id);
      } else {
        HistoryOf(s, id);
        PathFrame(s.events, KeyOf(job), t.events[KeyOf(job)], id, s.jobs[id].statusVersion);
        OperationKnown(s, id);
      }
    }
  }

  lemma CreatedConsistent(s: Store, operation: Operation, job: Job, at: Time)
    requires Consistent(s) && Fresh(operation, job, at) && Creatable(s, operation, job)
    ensures Consistent(Created(s, operation, job, at))
  {
    hide HistoriesConnected, EventsBounded, OutboxMirrorsEvents, OperationsDistinct, Created;
    CreatedHistories(s, operation, job, at);
    forall id | id in s.jobs
      ensures s.jobs[id].operationId != job.operationId
    {
      OperationKnown(s, id);
    }
    CreatedFrame(s, operation, job, at);
  }

  lemma CreatedFrame(s: Store, operation: Operation, job: Job, at: Time)
    requires EventsBounded(s) && OutboxMirrorsEvents(s) && OperationsDistinct(s.jobs)
    requires Fresh(operation, job, at) && Creatable(s, operation, job)
    requires forall id :: id in s.jobs ==> s.jobs[id].operationId != job.operationId
    ensures var t := Created(s, operation, job, at);
            EventsBounded(t) && OutboxMirrorsEvents(t) && OperationsDistinct(t.jobs)
  {
  }

  predicate SameVersion(was: Job, job: Job)
  {
    && job.id == was.id && job.statusVersion == was.statusVersion
    && job.status == was.status && job.operationId == was.operationId
  }

  lemma SameVersionHistories(s: Store, id: string, job: Job)
    requires HistoriesConnected(s) && id in s.jobs && SameVersion(s.jobs[id], job)
    ensures HistoriesConnected(s.(jobs := s.jobs[id := job]))
  {
    hide Path, Projection;
    var t := s.(jobs := s.jobs[id := job]);
    forall i | i in t.jobs
      ensures t.jobs[i].id == i && JobHistory(t, t.jobs[i])
    {
      assert JobHistory(s, s.jobs[i]) && s.jobs[i].id == i;
    }
  }

  /** Replacing a job by one with the same identity, version and status touches no invariant. */
  lemma SameVersionConsistent(s: Store, id: string, job: Job)
    requires Consistent(s) && id in s.jobs && SameVersion(s.jobs[id], job)
    ensures Consistent(s.(jobs := s.jobs[id := job]))
  {
    hide HistoriesConnected;
    SameVersionHistories(s, id, job);
  }

  lemma ExtendConsistent(s: Store, id: string, version: int, fence: int, token: string, until: Time, at: Time)
    requires Consistent(s)
    ensures Consistent(Extend(s, id, version, fence, token, until, at))
  {
    hide Consistent;
    if Extendable(s, id, version, fence, token, until, at) {
      HistoryOf(s, id);
      SameVersionConsistent(s, id, Extended(s.jobs[id], until, at));
    }
  }

  /** A recorded single-job change: it follows the store, and the job keeps or raises its fence. */
  ghost predicate SingleChange(s: Store, r: Result<Option<Change>, Error>)
  {
    r.Success? && r.value.Some? ==>
        Follows(s, r.value.value) && r.value.value.job.fenceToken >= s.jobs[r.value.value.job.id].fenceToken
  }

  lemma MoveChange(s: Store, id: string, version: int, fence: int, to: Status, reason: string, at: Time)
    requires Consistent(s)
    ensures SingleChange(s, Transition(s, id, version, fence, to, reason, at))
  {
    hide Consistent, Follows, OutboxInsertable;
    if Fenced(s, id, version, fence) && TransitionAllowed(s.jobs[id].status, to, reason) {
      TransitionFollows(s, id, to, reason, at);
    }
  }

  lemma FollowsAdjusted(s: Store, c: Change, job: Job)
    requires Follows(s, c)
    requires job.id == c.job.id && job.statusVersion == c.job.statusVersion && job.operationId == c.job.operationId
    requires job.status == c.job.status
    ensures Follows(s, c.(job := job))
  {
  }

  lemma RetryChange(s: Store, id: string, version: int, fence: int, reason: string, next: Time, at: Time)
    requires Consistent(s)
    ensures SingleChange(s, Requeue(s, id, version, fence, reason, next, at))
  {
    hide Consistent, Follows, OutboxInsertable;
    if Fenced(s, id, version, fence) && TransitionAllowed(s.jobs[id].status, Queued, reason) {
      TransitionFollows(s, id, Queued, reason, at);
      var c := PrepareTransition(s.jobs[id], Queued, reason, at).value;
      FollowsAdjusted(s, c, c.job.(nextEligibleAt := if next > at then next else at));
    }
  }

  lemma AbandonChange(s: Store, id: string, allowed: bool, reason: string, at: Time)
    requires Consistent(s)
    ensures SingleChange(s, Cancel(s, id, allowed, reason, at))
  {
    hide Consistent, Follows, OutboxInsertable;
    if id in s.jobs && allowed {
      var job := s.jobs[id];
      var to := if job.status == Accepted || job.status == Queued then Canceled else Canceling;
      if TransitionAllowed(job.status, to, reason) {
        TransitionFollows(s, id, to, reason, at);
        var c := PrepareTransition(job, to, reason, at).value;
        FollowsAdjusted(s, c, c.job.(fenceToken := c.job.fenceToken + 1));
      }
    }
  }

  lemma SingleConsistent(s: Store, r: Result<Option<Change>, Error>, at: Time)
    requires Consistent(s) && SingleChange(s, r)
    ensures Consistent(RecordedIf(s, r, at))
  {
    hide Consistent, Follows, Recorded;
    if r.Success? && r.value.Some? {
      RecordedConsistent(s, r.value.value, at);
    }
  }

  /** Every step keeps the store consistent. */
  lemma StepConsistent(s: Store, step: Step)
    requires Consistent(s) && Enabled(s, step)
    ensures Consistent(Apply(s, step))
  {
    hide Consistent, SingleChange, RecordedIf, Transition, Requeue, Cancel, Extend, Created, ClaimAll, Claimable;
    match step
    case Create(operation, job, at) =>
      if Creatable(s, operation, job) {
        CreatedConsistent(s, operation, job, at);
      }
    case Claim(picks, lease, at) =>
      ClaimBatch(s, picks, at, lease, []);
    case ExtendLease(id, version, fence, token, until, at) =>
      ExtendConsistent(s, id, version, fence, token, until, at);
    case Move(id, version, fence, to, reason, at) =>
      MoveChange(s, id, version, fence, to, reason, at);
      SingleConsistent(s, Transition(s, id, version, fence, to, reason, at), at);
    case Retry(id, version, fence, reason, next, at) =>
      RetryChange(s, id, version, fence, reason, next, at);
      SingleConsistent(s, Requeue(s, id, version, fence, reason, next, at), at);
    case Abandon(id, allowed, reason, at) =>
      AbandonChange(s, id, allowed, reason, at);
      SingleConsistent(s, Cancel(s, id, allowed, reason, at), at);
  }
}
