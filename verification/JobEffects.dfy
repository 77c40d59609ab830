/**
 What changes mean, said in columns: which moves are legal, what a move writes to the job, its event
 and its operation, and which outcome every reachable job's operation shows.
 */
module JobEffects {
  import opened Base
  import opened JobModel
  import opened FairQueue
  import opened JobStore
  import opened JobSteps
  import opened JobRuns

  /** Every move between two statuses. */
  const MOVES: set<(Status, Status)> := {
    (Accepted, Queued), (Accepted, Canceled),
    (Queued, Dispatching), (Queued, Canceled),
    (Dispatching, Queued), (Dispatching, Running), (Dispatching, Unknown), (Dispatching, Canceling),
    (Running, Succeeded), (Running, Failed), (Running, Canceling), (Running, Unknown),
    (Canceling, Canceled), (Canceling, Succeeded), (Canceling, Failed),
    (Unknown, Queued), (Unknown, Running), (Unknown, Succeeded), (Unknown, Failed),
    (Succeeded, Expired), (Failed, Expired), (Canceled, Expired)}

  const KINDS: map<Status, EventKind> := map[
    Queued := EventQueued, Dispatching := EventScheduled, Running := EventRunning, Canceling := EventCancelling,
    Canceled := EventCancelled, Succeeded := EventCompleted, Failed := EventFailed, Unknown := EventUnknown,
    Expired := EventExpired]

  /** A job of unknown outcome goes back to the queue only when it is proven that nothing was created. */
  predicate Legal(from: Status, to: Status, reason: string)
  {
    (from, to) in MOVES && (from == Unknown && to == Queued ==> reason == "proven_not_created")
  }

  lemma LegalMoves(from: Status, to: Status, reason: string)
    ensures TransitionAllowed(from, to, reason) <==> Legal(from, to, reason)
    ensures Legal(from, to, reason) ==> to in KINDS && EventKindOf(to) == Some(KINDS[to])
  {
  }

  // ---- The job after a move ----

  predicate SameIdentity(a: Job, b: Job)
  {
    && b.id == a.id && b.operationId == a.operationId && b.scope == a.scope && b.credentialId == a.credentialId
    && b.operation == a.operation && b.idempotencyKey == a.idempotencyKey && b.fingerprint == a.fingerprint
    && b.priority == a.priority && b.createdAt == a.createdAt
  }

  /** One version later in the new status, with the columns that go with it. */
  predicate Moved(a: Job, b: Job, to: Status, reason: string, at: Time)
  {
    && SameIdentity(a, b) && b.status == to && b.statusVersion == a.statusVersion + 1 && b.updatedAt == at
    && b.errorType == (if to == Failed || to == Unknown then reason else "")
    && (if to == Dispatching then b.leaseUntil == a.leaseUntil && b.leaseToken == a.leaseToken &&
         b.workerId == a.workerId
        else b.leaseUntil == None && b.leaseToken == "" && b.workerId == "")
    && b.completedAt == (if to == Succeeded || to == Failed || to == Canceled then Some(at) else a.completedAt)
  }

  /** Event and outbox row of the move, under the new version. */
  ghost predicate RecordsMove(t: Store, a: Job, b: Job, to: Status, reason: string, at: Time)
  {
    && to in KINDS
    && var k := EventKey(a.id, a.statusVersion + 1);
    && k in t.events && t.events[k] == Event(a.id, a.statusVersion + 1, KINDS[to], a.status, to, reason, at)
    && k in t.outbox && t.outbox[k] == OutboxRow(a.id, KINDS[to], a.statusVersion + 1, a.operationId, to, at)
    && a.id in t.jobs && t.jobs[a.id] == b
  }

  ghost predicate OnlyJob(s: Store, t: Store, id: string)
  {
    t.jobs.Keys == s.jobs.Keys && forall i :: i in s.jobs && i != id ==> t.jobs[i] == s.jobs[i]
  }

  /** The caller holds the current version and, once there is one, the fence. */
  predicate Holds(s: Store, id: string, version: int, fence: int)
  {
    id in s.jobs && s.jobs[id].statusVersion == version &&
        (s.jobs[id].fenceToken > 0 ==> s.jobs[id].fenceToken == fence)
  }

  lemma PreparedMove(job: Job, to: Status, reason: string, at: Time)
    requires Legal(job.status, to, reason) && job.statusVersion >= 1
    ensures var r := PrepareTransition(job, to, reason, at);
            && r.Success? && Moved(job, r.value.job, to, reason, at) && to in KINDS
            && r.value.job.fenceToken == job.fenceToken
            && r.value.job.nextEligibleAt == (if to == Queued then at else job.nextEligibleAt)
            && r.value.event == Event(job.id, job.statusVersion + 1, KINDS[to], job.status, to, reason, at)
            && r.value.outbox == OutboxRow(job.id, KINDS[to], job.statusVersion + 1, job.operationId, to, at)
  {
    LegalMoves(job.status, to, reason);
  }

  lemma NotPrepared(job: Job, to: Status, reason: string, at: Time)
    requires !Legal(job.status, to, reason)
    ensures PrepareTransition(job, to, reason, at) == Failure(InvalidTransition)
  {
    LegalMoves(job.status, to, reason);
  }

  /** The columns, event and outbox row of a change are what the store shows after it. */
  lemma ChangeShows(s: Store, c: Change, id: string, to: Status, reason: string, at: Time)
    requires id in s.jobs && s.jobs[id].id == id && Moved(s.jobs[id], c.job, to, reason, at) && to in KINDS
    requires c.event == Event(id, s.jobs[id].statusVersion + 1, KINDS[to], s.jobs[id].status, to, reason, at)
    requires c.outbox == OutboxRow(id, KINDS[to], s.jobs[id].statusVersion + 1, s.jobs[id].operationId, to, at)
    ensures var t := Recorded(s, c, at);
            OnlyJob(s, t, id) && t.jobs[id] == c.job && RecordsMove(t, s.jobs[id], c.job, to, reason, at)
  {
    hide ApplyOperationStatus;
  }

  /** A transition happens exactly when the caller holds the job and the move is legal, and writes exactly this. */
  lemma MoveEffect(s: Store, id: string, version: int, fence: int, to: Status, reason: string, at: Time)
    requires Consistent(s)
    ensures var r := Transition(s, id, version, fence, to, reason, at);
            var t := RecordedIf(s, r, at);
            && (!Holds(s, id, version, fence) ==> r == Success(None))
            && (Holds(s, id, version, fence) && !Legal(s.jobs[id].status, to, reason) ==>
                   r == Failure(InvalidTransition))
            && (Holds(s, id, version, fence) && Legal(s.jobs[id].status, to, reason) ==>
                  && r.Success? && r.value.Some? && OnlyJob(s, t, id)
                  && Moved(s.jobs[id], t.jobs[id], to, reason, at) && t.jobs[id].fenceToken == s.jobs[id].fenceToken
                  && t.jobs[id].nextEligibleAt == (if to == Queued then at else s.jobs[id].nextEligibleAt)
                  && RecordsMove(t, s.jobs[id], t.jobs[id], to, reason, at))
  {
    hide Consistent, PrepareTransition, OutboxInsertable, JobHistory, TransitionAllowed, Follows, Legal, Moved,
         RecordsMove, OnlyJob, Recorded, Guarded;
    if Holds(s, id, version, fence) {
      HistoryVersion(s, id);
      if Legal(s.jobs[id].status, to, reason) {
        LegalMoves(s.jobs[id].status, to, reason);
        PreparedMove(s.jobs[id], to, reason, at);
        TransitionFollows(s, id, to, reason, at);
        var c := PrepareTransition(s.jobs[id], to, reason, at).value;
        NoCollision(s, c);
        ChangeShows(s, c, id, to, reason, at);
      } else {
        NotPrepared(s.jobs[id], to, reason, at);
        NotGuarded(s);
      }
    }
  }

  lemma HistoryVersion(s: Store, id: string)
    requires Consistent(s) && id in s.jobs
    ensures s.jobs[id].statusVersion >= 1 && s.jobs[id].id == id
  {
    HistoryOf(s, id);
  }

  lemma NotGuarded(s: Store)
    ensures Guarded(s, Failure(InvalidTransition)) == Failure(InvalidTransition)
  {
  }

  /** A requeue is the move to queued, eligible at the later of the given and the current time. */
  lemma RequeueEffect(s: Store, id: string, version: int, fence: int, reason: string, next: Time, at: Time)
    requires Consistent(s)
    ensures var r := Requeue(s, id, version, fence, reason, next, at);
            var t := RecordedIf(s, r, at);
            && (!Holds(s, id, version, fence) ==> r == Success(None))
            && (Holds(s, id, version, fence) && !Legal(s.jobs[id].status, Queued, reason) ==>
                   r == Failure(InvalidTransition))
            && (Holds(s, id, version, fence) && Legal(s.jobs[id].status, Queued, reason) ==>
                  && r.Success? && r.value.Some? && OnlyJob(s, t, id)
                  && Moved(s.jobs[id], t.jobs[id], Queued, reason, at) && t.jobs[id].fenceToken == s.jobs[id].fenceToken
                  && t.jobs[id].nextEligibleAt == Max(next, at)
                  && RecordsMove(t, s.jobs[id], t.jobs[id], Queued, reason, at))
  {
    hide Consistent, PrepareTransition, OutboxInsertable, JobHistory, TransitionAllowed, Follows, Legal, Moved,
         RecordsMove, OnlyJob, Recorded, Guarded;
    if Holds(s, id, version, fence) {
      HistoryVersion(s, id);
      if Legal(s.jobs[id].status, Queued, reason) {
        LegalMoves(s.jobs[id].status, Queued, reason);
        PreparedMove(s.jobs[id], Queued, reason, at);
        TransitionFollows(s, id, Queued, reason, at);
        var c := PrepareTransition(s.jobs[id], Queued, reason, at).value;
        var job := c.job.(nextEligibleAt := if next > at then next else at);
        MovedLater(s.jobs[id], c.job, job, reason, at);
        FollowsAdjusted(s, c, job);
        NoCollision(s, c.(job := job));
        ChangeShows(s, c.(job := job), id, Queued, reason, at);
      } else {
        NotPrepared(s.jobs[id], Queued, reason, at);
      }
    }
  }

  lemma MovedLater(a: Job, b: Job, c: Job, reason: string, at: Time)
    requires Moved(a, b, Queued, reason, at) && c == b.(nextEligibleAt := c.nextEligibleAt)
    ensures Moved(a, c, Queued, reason, at)
  {
  }

  /** Where a cancellation takes a job: out of the queue at once, or into canceling while it runs. */
  function CancelTarget(status: Status): Option<Status>
  {
    if status in {Accepted, Queued} then Some(Canceled)
    else if status in {Dispatching, Running} then Some(Canceling)
    else None
  }

  /** The job moved to the target; a dispatched one was fenced off as well. */
  ghost predicate CanceledTo(s: Store, t: Store, id: string, to: Status, reason: string, at: Time)
  {
    && id in s.jobs && id in t.jobs && OnlyJob(s, t, id) && Moved(s.jobs[id], t.jobs[id], to, reason, at)
    && t.jobs[id].fenceToken == s.jobs[id].fenceToken + (if s.jobs[id].status == Dispatching then 1 else 0)
    && RecordsMove(t, s.jobs[id], t.jobs[id], to, reason, at)
  }

  lemma CancelPrepared(s: Store, id: string, reason: string, at: Time) returns (c: Change)
    requires Consistent(s) && id in s.jobs && CancelTarget(s.jobs[id].status).Some?
    ensures var to := CancelTarget(s.jobs[id].status).value;
            && Cancel(s, id, true, reason, at) == Guarded(s, Success(c)) && Follows(s, c) && to in KINDS
            && Moved(s.jobs[id], c.job, to, reason, at)
            && c.job.fenceToken == s.jobs[id].fenceToken + (if s.jobs[id].status == Dispatching then 1 else 0)
            && c.event == Event(id, s.jobs[id].statusVersion + 1, KINDS[to], s.jobs[id].status, to, reason, at)
            && c.outbox == OutboxRow(id, KINDS[to], s.jobs[id].statusVersion + 1, s.jobs[id].operationId, to, at)
  {
    hide Consistent, PrepareTransition, Guarded, JobHistory, TransitionAllowed, Follows;
    HistoryOf(s, id);
    var job, to := s.jobs[id], CancelTarget(s.jobs[id].status).value;
    assert Legal(job.status, to, reason);
    LegalMoves(job.status, to, reason);
    PreparedMove(job, to, reason, at);
    TransitionFollows(s, id, to, reason, at);
    c := PrepareTransition(job, to, reason, at).value;
    var fenced := c.job.(fenceToken := c.job.fenceToken + 1);
    FollowsAdjusted(s, c, fenced);
    assert c.(job := c.job) == c;
    if job.status == Dispatching {
      c := c.(job := fenced);
    }
  }

  lemma CancelMoves(s: Store, id: string, reason: string, at: Time)
    requires Consistent(s) && id in s.jobs && CancelTarget(s.jobs[id].status).Some?
    ensures var r := Cancel(s, id, true, reason, at);
            && r.Success? && r.value.Some?
            && CanceledTo(s, RecordedIf(s, r, at), id, CancelTarget(s.jobs[id].status).value, reason, at)
  {
    hide Consistent, Cancel, Follows, ApplyOperationStatus, JobHistory, Moved, CancelTarget;
    var c := CancelPrepared(s, id, reason, at);
    NoCollision(s, c);
    HistoryOf(s, id);
    MovedIdentity(s.jobs[id], c.job, CancelTarget(s.jobs[id].status).value, reason, at);
  }

  lemma MovedIdentity(a: Job, b: Job, to: Status, reason: string, at: Time)
    requires Moved(a, b, to, reason, at)
    ensures b.id == a.id && b.statusVersion == a.statusVersion + 1 && b.operationId == a.operationId && b.status == to
  {
  }

  /** A cancellation succeeds exactly on queued, dispatched and running jobs; it fences off a dispatched one. */
  lemma CancelEffect(s: Store, id: string, allowed: bool, reason: string, at: Time)
    requires Consistent(s)
    ensures var r := Cancel(s, id, allowed, reason, at);
            && (!(id in s.jobs && allowed) ==> r == Success(None))
            && (id in s.jobs && allowed && s.jobs[id].status in {Canceling, Canceled} ==> r == Success(None))
            && (id in s.jobs && allowed && s.jobs[id].status in {Succeeded, Failed, Unknown, Expired} ==>
                  r == Failure(NotCancelable))
            && (id in s.jobs && allowed && CancelTarget(s.jobs[id].status).Some? ==>
                  && r.Success? && r.value.Some?
                  && CanceledTo(s, RecordedIf(s, r, at), id, CancelTarget(s.jobs[id].status).value, reason, at))
  {
    hide Consistent, RecordedIf, CanceledTo, Guarded, PrepareTransition;
    if id in s.jobs && allowed && CancelTarget(s.jobs[id].status).Some? {
      CancelMoves(s, id, reason, at);
    }
  }

  // ---- What the operation shows ----

  const FINISHED: map<Status, OperationStatus> := map[Succeeded := OpSucceeded, Failed := OpFailed,
      Canceled := OpCanceled]

  /** Some event up to the version dispatched the job. */
  ghost predicate EverDispatched(events: map<EventKey, Event>, id: string, n: nat)
  {
    exists k: nat :: 1 <= k <= n && EventKey(id, k) in events && events[EventKey(id, k)].to == Dispatching
  }

  /** The outcome an operation shows after n events of its job. */
  ghost predicate Shows(events: map<EventKey, Event>, id: string, n: nat, op: OperationStatus)
  {
    && n >= 1 && EventKey(id, n) in events
    && var to := events[EventKey(id, n)].to;
    && to != Accepted
    && (to in FINISHED ==> op == FINISHED[to])
    && (to in {Dispatching, Running, Canceling, Unknown} ==> op == OpRunning)
    && (to == Queued ==> op == (if EverDispatched(events, id, n) then OpRunning else OpAccepted))
    && (to in {Dispatching, Running, Canceling, Unknown} ==> EverDispatched(events, id, n))
    && (to == Expired ==>
          n >= 2 && EventKey(id, n - 1) in events && events[EventKey(id, n - 1)].to in FINISHED &&
          op == FINISHED[events[EventKey(id, n - 1)].to])
  }

  lemma EverKept(events: map<EventKey, Event>, id: string, n: nat)
    requires n >= 1
    ensures EverDispatched(events, id, n) <==>
              EverDispatched(events, id, n - 1) ||
                  (EventKey(id, n) in events && events[EventKey(id, n)].to == Dispatching)
  {
  }

  lemma ShowsFirst(events: map<EventKey, Event>, id: string)
    requires Path(events, id, 1)
    ensures Shows(events, id, 1, Projection(events, id, 1))
  {
    assert PathStep(events, id, 1);
    var e := events[EventKey(id, 1)];
    EverKept(events, id, 1);
    assert !EverDispatched(events, id, 0);
    assert Projection(events, id, 1) == ProjectStatus(Projection(events, id, 0), e.to);
  }

  lemma ShowsNext(events: map<EventKey, Event>, id: string, n: nat, op: OperationStatus)
    requires n >= 2 && PathStep(events, id, n) && Shows(events, id, n - 1, op)
    ensures Shows(events, id, n, ProjectStatus(op, events[EventKey(id, n)].to))
  {
    hide EverDispatched;
    EverKept(events, id, n);
    var e := events[EventKey(id, n)];
    if TransitionAllowed(e.from, e.to, e.reason) {
      LegalMoves(e.from, e.to, e.reason);
    }
    hide TransitionAllowed, EventKindOf;
  }

  lemma {:induction false} PathShows(events: map<EventKey, Event>, id: string, n: nat)
    requires n >= 1 && Path(events, id, n)
    ensures Shows(events, id, n, Projection(events, id, n))
  {
    hide Shows, PathStep, ProjectStatus;
    if n == 1 {
      ShowsFirst(events, id);
    } else {
      PathShows(events, id, n - 1);
      ShowsNext(events, id, n, Projection(events, id, n - 1));
    }
  }

  /** In a consistent store every operation shows the outcome of its job. */
  lemma OperationShows(s: Store, id: string)
    requires Consistent(s) && id in s.jobs
    ensures var job := s.jobs[id];
            && job.operationId in s.operations && job.statusVersion >= 1
            && Shows(s.events, id, job.statusVersion, s.operations[job.operationId].status)
            && s.events[EventKey(id, job.statusVersion)].to == job.status
  {
    hide Consistent, Shows;
    HistoryOf(s, id);
    PathShows(s.events, id, s.jobs[id].statusVersion);
  }

  /**
   In every reachable store: a finished job's operation shows how it finished, a dispatched, running,
   canceling or unknown one's is running, a queued one's is accepted until its first dispatch, and an
   expired one's keeps the outcome of the finish before.
   */
  lemma ReachableOutcome(steps: seq<Step>, w: World, id: string)
    requires Execution(World(EMPTY, 0), steps, w) && id in w.store.jobs
    ensures w.store.jobs[id].operationId in w.store.operations && w.store.jobs[id].statusVersion >= 1
    ensures var job := w.store.jobs[id];
            var op := w.store.operations[job.operationId].status;
            && (job.status == Succeeded ==> op == OpSucceeded)
            && (job.status == Failed ==> op == OpFailed)
            && (job.status == Canceled ==> op == OpCanceled)
            && (job.status in {Dispatching, Running, Canceling, Unknown} ==> op == OpRunning)
            && (job.status == Queued ==>
                  op == (if EverDispatched(w.store.events, id, job.statusVersion) then OpRunning else OpAccepted))
            && (job.status == Expired ==>
                  && EventKey(id, job.statusVersion - 1) in w.store.events
                  && var finish := w.store.events[EventKey(id, job.statusVersion - 1)].to;
                     && finish in {Succeeded, Failed, Canceled}
                     && op == (if finish == Succeeded then OpSucceeded else if finish == Failed then OpFailed
                          else OpCanceled))
  {
    hide Consistent, Execution, EverDispatched;
    EmptyConsistent();
    Reachable(World(EMPTY, 0), steps, w);
    OperationShows(w.store, id);
  }

  /** What a recorded move leaves in the operation. */
  lemma MoveOutcome(t: Store, id: string)
    requires Consistent(t) && id in t.jobs
    ensures t.jobs[id].operationId in t.operations
    ensures var op := t.operations[t.jobs[id].operationId].status;
            && (t.jobs[id].status == Succeeded ==> op == OpSucceeded)
            && (t.jobs[id].status == Failed ==> op == OpFailed)
            && (t.jobs[id].status == Canceled ==> op == OpCanceled)
            && (t.jobs[id].status in {Dispatching, Running, Canceling, Unknown} ==> op == OpRunning)
  {
    hide Consistent, EverDispatched;
    OperationShows(t, id);
  }

  // ---- The laws the repository calls state ----

  /** The operation shows the status its job moved to. */
  ghost predicate OutcomeShown(t: Store, id: string)
  {
    && id in t.jobs && t.jobs[id].operationId in t.operations
    && var op := t.operations[t.jobs[id].operationId].status;
    && (t.jobs[id].status == Succeeded ==> op == OpSucceeded)
    && (t.jobs[id].status == Failed ==> op == OpFailed)
    && (t.jobs[id].status == Canceled ==> op == OpCanceled)
    && (t.jobs[id].status in {Dispatching, Running, Canceling, Unknown} ==> op == OpRunning)
  }

  /** What a job's new status makes of its operation: started once, finished once, otherwise left alone. */
  ghost predicate OperationMoved(a: Operation, b: Operation, job: Job, at: Time)
  {
    && b.id == a.id
    && (if job.status in {Dispatching, Running, Canceling, Unknown} && a.status == OpAccepted then
          b.status == OpRunning && b.updatedAt == at && b.errorType == a.errorType && b.completedAt == a.completedAt
        else if job.status in FINISHED && a.status in {OpAccepted, OpRunning} then
          && b.status == FINISHED[job.status] && b.errorType == job.errorType && b.updatedAt == at
          && b.completedAt == Some(at)
        else b == a)
  }

  /** One event, one outbox row and one operation follow the job; every other record is as before. */
  ghost predicate RecordedOnce(s: Store, t: Store, id: string, at: Time)
  {
    && id in s.jobs && id in t.jobs
    && var k, o := EventKey(id, s.jobs[id].statusVersion + 1), s.jobs[id].operationId;
    && k !in s.events && t.events.Keys == s.events.Keys + {k} &&
         (forall x :: x in s.events ==> t.events[x] == s.events[x])
    && k !in s.outbox && t.outbox.Keys == s.outbox.Keys + {k} &&
         (forall x :: x in s.outbox ==> t.outbox[x] == s.outbox[x])
    && o in s.operations && t.operations.Keys == s.operations.Keys
    && (forall x :: x in s.operations && x != o ==> t.operations[x] == s.operations[x])
    && OperationMoved(s.operations[o], t.operations[o], t.jobs[id], at)
  }

  lemma AppliedMoves(op: Operation, job: Job, at: Time)
    requires op.id != ""
    ensures OperationMoved(op, ApplyOperationStatus(op, job.status, job.errorType, at), job, at)
  {
  }

  lemma ChangeRecordedOnce(s: Store, c: Change, at: Time)
    requires Consistent(s) && Follows(s, c)
    ensures RecordedOnce(s, Recorded(s, c, at), c.job.id, at)
  {
    hide Consistent, ApplyOperationStatus, OperationMoved, LegalEvent, Path;
    NoCollision(s, c);
    HistoryOf(s, c.job.id);
    AppliedMoves(s.operations[c.job.operationId], c.job, at);
    AppliedId(s.operations[c.job.operationId], c.job, at);
  }

  lemma AppliedId(op: Operation, job: Job, at: Time)
    ensures ApplyOperationStatus(op, job.status, job.errorType, at).id == op.id
  {
  }

  lemma RecordedOnceIf(s: Store, r: Result<Option<Change>, Error>, at: Time)
    requires Consistent(s) && SingleChange(s, r)
    ensures r.Success? && r.value.Some? ==> RecordedOnce(s, RecordedIf(s, r, at), r.value.value.job.id, at)
  {
    hide Consistent, Follows, Recorded, RecordedOnce;
    if r.Success? && r.value.Some? {
      ChangeRecordedOnce(s, r.value.value, at);
    }
  }

  ghost predicate TransitionLaw(s: Store, t: Store, id: string, version: int, fence: int, to: Status, reason: string,
      at: Time, updated: bool, error: Option<Error>)
  {
    && (updated <==> Holds(s, id, version, fence) && Legal(s.jobs[id].status, to, reason))
    && (error == if Holds(s, id, version, fence) && !updated then Some(InvalidTransition) else None)
    && (!updated ==> t == s)
    && (updated ==>
          && OnlyJob(s, t, id) && Moved(s.jobs[id], t.jobs[id], to, reason, at)
          && t.jobs[id].fenceToken == s.jobs[id].fenceToken
          && t.jobs[id].nextEligibleAt == (if to == Queued then at else s.jobs[id].nextEligibleAt)
          && RecordsMove(t, s.jobs[id], t.jobs[id], to, reason, at) && OutcomeShown(t, id)
          && RecordedOnce(s, t, id, at))
  }

  ghost predicate RequeueLaw(s: Store, t: Store, id: string, version: int, fence: int, reason: string, next: Time,
      at: Time, updated: bool, error: Option<Error>)
  {
    && (updated <==> Holds(s, id, version, fence) && Legal(s.jobs[id].status, Queued, reason))
    && (error == if Holds(s, id, version, fence) && !updated then Some(InvalidTransition) else None)
    && (!updated ==> t == s)
    && (updated ==>
          && OnlyJob(s, t, id) && Moved(s.jobs[id], t.jobs[id], Queued, reason, at)
          && t.jobs[id].fenceToken == s.jobs[id].fenceToken && t.jobs[id].nextEligibleAt == Max(next, at)
          && RecordsMove(t, s.jobs[id], t.jobs[id], Queued, reason, at) && RecordedOnce(s, t, id, at))
  }

  ghost predicate CancelLaw(s: Store, t: Store, id: string, allowed: bool, reason: string, at: Time, changed: bool,
      error: Option<Error>)
  {
    && (changed <==> id in s.jobs && allowed && CancelTarget(s.jobs[id].status).Some?)
    && (error == if id in s.jobs && allowed && s.jobs[id].status in {Succeeded, Failed, Unknown, Expired}
                 then Some(NotCancelable) else None)
    && (!changed ==> t == s)
    && (changed ==> CanceledTo(s, t, id, CancelTarget(s.jobs[id].status).value, reason, at))
    && (changed ==> OutcomeShown(t, id) && RecordedOnce(s, t, id, at))
  }

  /** A live lease named by version, fence and token is extended, never shortened; nothing else changes. */
  ghost predicate ExtendLaw(s: Store, t: Store, id: string, version: int, fence: int, token: string, until: Time,
      at: Time, extended: bool)
  {
    && (extended <==>
          && until > at && token != "" && id in s.jobs && s.jobs[id].status == Dispatching
          && s.jobs[id].statusVersion == version && s.jobs[id].fenceToken == fence && s.jobs[id].leaseToken == token
          && s.jobs[id].leaseUntil.Some? && s.jobs[id].leaseUntil.value > at)
    && (!extended ==> t == s)
    && (extended ==>
          && OnlyJob(s, t, id) && t.events == s.events && t.operations == s.operations && t.outbox == s.outbox
          && t.jobs[id].leaseUntil == Some(Max(s.jobs[id].leaseUntil.value, until))
          && t.jobs[id] == s.jobs[id].(leaseUntil := t.jobs[id].leaseUntil, updatedAt := t.jobs[id].updatedAt)
          && t.jobs[id].updatedAt >= s.jobs[id].updatedAt)
  }

  lemma TransitionLawHolds(s: Store, id: string, version: int, fence: int, to: Status, reason: string, at: Time)
    requires Consistent(s)
    ensures var r := Transition(s, id, version, fence, to, reason, at);
            TransitionLaw(s, RecordedIf(s, r, at), id, version, fence, to, reason, at, r.Success? && r.value.Some?,
                if r.Failure? then Some(r.error) else None)
  {
    hide Consistent, Transition, Moved, RecordsMove, Legal, OnlyJob, SingleChange, RecordedOnce;
    MoveEffect(s, id, version, fence, to, reason, at);
    var r := Transition(s, id, version, fence, to, reason, at);
    MoveChange(s, id, version, fence, to, reason, at);
    RecordedOnceIf(s, r, at);
    ChangedJob(s, r, id, at);
    SingleConsistent(s, r, at);
    if r.Success? && r.value.Some? {
      MovedIdentity(s.jobs[id], RecordedIf(s, r, at).jobs[id], to, reason, at);
      MoveOutcome(RecordedIf(s, r, at), id) by { MovedKeys(s, r, id, at); }
    }
  }

  lemma ChangedJob(s: Store, r: Result<Option<Change>, Error>, id: string, at: Time)
    ensures r.Success? && r.value.Some? && id in s.jobs && RecordedIf(s, r, at).jobs[id] != s.jobs[id] ==>
              r.value.value.job.id == id
  {
    hide ApplyOperationStatus;
  }

  lemma MovedKeys(s: Store, r: Result<Option<Change>, Error>, id: string, at: Time)
    requires id in s.jobs
    ensures id in RecordedIf(s, r, at).jobs
  {
  }

  lemma RequeueLawHolds(s: Store, id: string, version: int, fence: int, reason: string, next: Time, at: Time)
    requires Consistent(s)
    ensures var r := Requeue(s, id, version, fence, reason, next, at);
            RequeueLaw(s, RecordedIf(s, r, at), id, version, fence, reason, next, at, r.Success? && r.value.Some?,
                if r.Failure? then Some(r.error) else None)
  {
    hide Consistent, Requeue, Moved, RecordsMove, Legal, OnlyJob, SingleChange, RecordedOnce;
    RequeueEffect(s, id, version, fence, reason, next, at);
    var r := Requeue(s, id, version, fence, reason, next, at);
    RetryChange(s, id, version, fence, reason, next, at);
    RecordedOnceIf(s, r, at);
    ChangedJob(s, r, id, at);
    if r.Success? && r.value.Some? {
      MovedIdentity(s.jobs[id], RecordedIf(s, r, at).jobs[id], Queued, reason, at);
    }
  }

  lemma CanceledDiffers(s: Store, t: Store, id: string, to: Status, reason: string, at: Time)
    requires CanceledTo(s, t, id, to, reason, at)
    ensures t.jobs[id] != s.jobs[id]
  {
  }

  lemma CancelCases(status: Status)
    ensures status in {Canceling, Canceled} || status in {Succeeded, Failed, Unknown, Expired} ||
              CancelTarget(status).Some?
    ensures CancelTarget(status).Some? ==>
              status !in {Canceling, Canceled} && status !in {Succeeded, Failed, Unknown, Expired}
    ensures !(status in {Canceling, Canceled} && status in {Succeeded, Failed, Unknown, Expired})
  {
  }

  lemma CancelLawHolds(s: Store, id: string, allowed: bool, reason: string, at: Time)
    requires Consistent(s)
    ensures var r := Cancel(s, id, allowed, reason, at);
            CancelLaw(s, RecordedIf(s, r, at), id, allowed, reason, at, r.Success? && r.value.Some?,
                if r.Failure? then Some(r.error) else None)
  {
    hide Consistent, Cancel, CanceledTo, SingleChange, RecordedOnce;
    CancelEffect(s, id, allowed, reason, at);
    var r := Cancel(s, id, allowed, reason, at);
    if id in s.jobs {
      CancelCases(s.jobs[id].status);
    }
    AbandonChange(s, id, allowed, reason, at);
    SingleConsistent(s, r, at);
    RecordedOnceIf(s, r, at);
    ChangedJob(s, r, id, at);
    if r.Success? && r.value.Some? && id in s.jobs {
      CanceledDiffers(s, RecordedIf(s, r, at), id, CancelTarget(s.jobs[id].status).value, reason, at);
      MovedKeys(s, r, id, at);
      MoveOutcome(RecordedIf(s, r, at), id);
    }
  }
}
