/** Queue admission: per-scope limits, idempotent creation, and what they guarantee over runs. */
module Admission {
  import opened Base
  import opened JobModel
  import opened JobStore
  import opened JobSteps
  import opened JobRuns

  datatype Limits = Limits(organization: int, application: int, principal: int)

  predicate ValidLimits(limits: Limits)
  {
    limits.organization >= 0 && limits.application >= 0 && limits.principal >= 0
  }

  datatype Counts = Counts(organization: nat, application: nat, principal: nat)

  /** The scopes a limit can apply to. */
  datatype Level = Organization | Application(id: string) | Principal(applicationId: string, key: string)

  predicate CountsTowardQueue(status: Status) { status == Queued || status == Dispatching }

  predicate InLevel(scope: Scope, level: Level)
  {
    match level
    case Organization => true
    case Application(id) => scope.applicationId == id
    case Principal(app, key) => scope.applicationId == app && PrincipalKey(scope) == key
  }

  function LevelsOf(scope: Scope): (Level, Level, Level)
  {
    (Organization, Application(scope.applicationId), Principal(scope.applicationId, PrincipalKey(scope)))
  }

  function LimitAt(limits: Limits, level: Level): int
  {
    match level
    case Organization => limits.organization
    case Application(_) => limits.application
    case Principal(_, _) => limits.principal
  }

  ghost function QueueMembers(jobs: map<string, Job>, level: Level): set<string>
  {
    set id | id in jobs && CountsTowardQueue(jobs[id].status) && InLevel(jobs[id].scope, level)
  }

  ghost function QueueCounts(jobs: map<string, Job>, scope: Scope): Counts
  {
    var levels := LevelsOf(scope);
    Counts(|QueueMembers(jobs, levels.0)|, |QueueMembers(jobs, levels.1)|, |QueueMembers(jobs, levels.2)|)
  }

  predicate WithinLimits(limits: Limits, counts: Counts)
  {
    && !(limits.organization > 0 && counts.organization >= limits.organization)
    && !(limits.application > 0 && counts.application >= limits.application)
    && !(limits.principal > 0 && counts.principal >= limits.principal)
  }

  predicate SameIdempotencyScope(left: Job, right: Job)
  {
    && left.idempotencyKey != "" && left.scope == right.scope && left.credentialId == right.credentialId
    && left.operation == right.operation && left.idempotencyKey == right.idempotencyKey
  }

  predicate CountedAt(job: Job, level: Level) { CountsTowardQueue(job.status) && InLevel(job.scope, level) }

  /** Members already visited by a scan that has `rest` still to visit. */
  ghost function Seen(jobs: map<string, Job>, level: Level, rest: set<string>): nat
  {
    |QueueMembers(jobs, level) - rest|
  }

  lemma SeenStep(jobs: map<string, Job>, level: Level, rest: set<string>, id: string)
    requires id in rest && id in jobs
    ensures Seen(jobs, level, rest - {id}) == Seen(jobs, level, rest) + (if CountedAt(jobs[id], level) then 1 else 0)
  {
    var all := QueueMembers(jobs, level);
    assert all - (rest - {id}) == (all - rest) + (if CountedAt(jobs[id], level) then {id} else {});
  }

  lemma SeenEnds(jobs: map<string, Job>, level: Level)
    ensures Seen(jobs, level, jobs.Keys) == 0
    ensures Seen(jobs, level, {}) == |QueueMembers(jobs, level)|
  {
    assert QueueMembers(jobs, level) - jobs.Keys == {};
    assert QueueMembers(jobs, level) - {} == QueueMembers(jobs, level);
  }

  /** Scan of the job map, one increment per matching scope. */
  method CountQueue(jobs: map<string, Job>, scope: Scope) returns (counts: Counts)
    ensures counts == QueueCounts(jobs, scope)
  {
    hide Seen, QueueMembers, PrincipalKey;
    var org, app, owner := 0, 0, 0;
    var rest := jobs.Keys;
    ghost var levels := LevelsOf(scope);
    SeenEnds(jobs, levels.0);
    SeenEnds(jobs, levels.1);
    SeenEnds(jobs, levels.2);
    while rest != {}
      invariant rest <= jobs.Keys
      invariant org == Seen(jobs, levels.0, rest)
      invariant app == Seen(jobs, levels.1, rest)
      invariant owner == Seen(jobs, levels.2, rest)
      decreases |rest|
    {
      var id :| id in rest;
      SeenStep(jobs, levels.0, rest, id);
      SeenStep(jobs, levels.1, rest, id);
      SeenStep(jobs, levels.2, rest, id);
      rest := rest - {id};
      if CountsTowardQueue(jobs[id].status) {
        org := org + 1;
        if jobs[id].scope.applicationId == scope.applicationId {
          app := app + 1;
          if PrincipalKey(jobs[id].scope) == PrincipalKey(scope) {
            owner := owner + 1;
          }
        }
      }
    }
    counts := Counts(org, app, owner);
  }

  // ---- The decision ----

  datatype CreateResult = Admit(job: Job) | Replay(job: Job) | Refuse(error: Error)

  predicate ValidAdmission(operation: Operation, job: Job, event: Event, row: OutboxRow)
  {
    && operation.id != "" && operation.id == job.operationId && job.idempotencyKey != ""
    && job.id != "" && job.status == Queued && job.statusVersion == 1 && job.fingerprint != ""
    && event.jobId == job.id && event.version == job.statusVersion && event.kind == EventQueued
    && row.aggregateId == job.id && row.version == job.statusVersion && row.kind == event.kind
  }

  /** Why an admission that is no replay is refused, in the order the checks run. */
  ghost function Verdict(s: Store, operation: Operation, job: Job, row: OutboxRow, limits: Limits,
      budgetOk: bool): Option<Error>
  {
    if !WithinLimits(limits, QueueCounts(s.jobs, job.scope)) then Some(CapacityExceeded)
    else if operation.id in s.operations || job.id in s.jobs || KeyOf(job) in s.events then Some(AlreadyExists)
    else if !OutboxInsertable(s.outbox, KeyOf(job), row) then Some(OutboxExists)
    else if !budgetOk then Some(BudgetExceeded)
    else None
  }

  ghost predicate Owns(jobs: map<string, Job>, job: Job)
  {
    exists id :: id in jobs && SameIdempotencyScope(jobs[id], job)
  }

  /** The admission creates the job: valid, no replay, and none of the refusals. */
  ghost predicate Admits(s: Store, operation: Operation, job: Job, event: Event, row: OutboxRow, limits: Limits,
      budgetOk: bool)
  {
    && ValidAdmission(operation, job, event, row) && ValidLimits(limits)
    && !Owns(s.jobs, job) && Verdict(s, operation, job, row, limits, budgetOk) == None
  }

  // ---- The decision, said in columns ----

  /** The stored job was asked for by the same principal, credential and operation under the same key. */
  predicate Earlier(jobs: map<string, Job>, id: string, job: Job)
  {
    && id in jobs && job.idempotencyKey != "" && jobs[id].idempotencyKey == job.idempotencyKey
    && jobs[id].scope == job.scope && jobs[id].credentialId == job.credentialId && jobs[id].operation == job.operation
  }

  /** Every positive limit is above the number of queued and dispatching jobs it limits. */
  ghost predicate Room(jobs: map<string, Job>, scope: Scope, limits: Limits)
  {
    var waiting := set id | id in jobs && jobs[id].status in {Queued, Dispatching};
    var same := set id | id in waiting && jobs[id].scope.applicationId == scope.applicationId;
    var own := set id | id in same && PrincipalKey(jobs[id].scope) == PrincipalKey(scope);
    && (limits.organization > 0 ==> |waiting| < limits.organization)
    && (limits.application > 0 ==> |same| < limits.application)
    && (limits.principal > 0 ==> |own| < limits.principal)
  }

  /** Operation, job, first event and outbox row are all new. */
  ghost predicate Unused(s: Store, operation: Operation, job: Job)
  {
    && operation.id !in s.operations && job.id !in s.jobs && EventKey(job.id, 1) !in s.events
    && EventKey(job.id, 1) !in s.outbox
    && forall k | k in s.outbox ::
         !(s.outbox[k].aggregateId == job.id && s.outbox[k].kind == EventQueued && s.outbox[k].version == 1)
  }

  /** A submission replays exactly its earlier job, and otherwise creates exactly when there is room and it is new. */
  ghost predicate SubmissionLaw(s: Store, operation: Operation, job: Job, event: Event, row: OutboxRow, limits: Limits,
      budgetOk: bool, result: CreateResult, t: Store)
  {
    var valid := ValidAdmission(operation, job, event, row) && ValidLimits(limits);
    var earlier := exists id :: Earlier(s.jobs, id, job);
    && (result.Replay? <==> valid && earlier)
    && (result.Replay? ==> exists id :: Earlier(s.jobs, id, job) && s.jobs[id] == result.job)
    && (result.Admit? <==>
          valid && !earlier && Room(s.jobs, job.scope, limits) && Unused(s, operation, job) && budgetOk)
    && (result == Refuse(CapacityExceeded) <==> valid && !earlier && !Room(s.jobs, job.scope, limits))
    && (result.Admit? ==>
          t == Store(s.jobs[job.id := job], s.events[EventKey(job.id, 1) := event],
                     s.operations[operation.id := operation], s.outbox[EventKey(job.id, 1) := row]))
    && (!result.Admit? ==> t == s)
  }

  lemma OwnsExactly(jobs: map<string, Job>, job: Job)
    ensures Owns(jobs, job) <==> exists id :: Earlier(jobs, id, job)
    ensures forall id :: id in jobs ==> (SameIdempotencyScope(jobs[id], job) <==> Earlier(jobs, id, job))
  {
    if Owns(jobs, job) {
      var id :| id in jobs && SameIdempotencyScope(jobs[id], job);
      assert Earlier(jobs, id, job);
    }
  }

  lemma RoomExactly(jobs: map<string, Job>, scope: Scope, limits: Limits)
    ensures WithinLimits(limits, QueueCounts(jobs, scope)) <==> Room(jobs, scope, limits)
  {
    hide PrincipalKey;
    var waiting := set id | id in jobs && jobs[id].status in {Queued, Dispatching};
    var same := set id | id in waiting && jobs[id].scope.applicationId == scope.applicationId;
    var own := set id | id in same && PrincipalKey(jobs[id].scope) == PrincipalKey(scope);
    var levels := LevelsOf(scope);
    assert QueueMembers(jobs, levels.0) == waiting;
    assert QueueMembers(jobs, levels.1) == same;
    assert QueueMembers(jobs, levels.2) == own;
  }

  lemma UnusedExactly(s: Store, operation: Operation, job: Job, event: Event, row: OutboxRow)
    requires ValidAdmission(operation, job, event, row)
    ensures Unused(s, operation, job) <==>
              && operation.id !in s.operations && job.id !in s.jobs && KeyOf(job) !in s.events
              && OutboxInsertable(s.outbox, KeyOf(job), row)
  {
  }

  // ---- Over runs ----

  /** Admissions pass the limit check and find no job of their idempotency scope. */
  ghost predicate Admitted(s: Store, step: Step, limits: Limits)
  {
    step.Create? ==>
      && WithinLimits(limits, QueueCounts(s.jobs, step.job.scope))
      && step.job.idempotencyKey != ""
      && forall id :: id in s.jobs ==> !SameIdempotencyScope(s.jobs[id], step.job)
  }

  /** A call of the program: a submission, which the repository decides, or any step that creates nothing. */
  datatype Call = Submit(operation: Operation, job: Job, budgetOk: bool, at: Time) | Perform(step: Step)

  function CallTime(call: Call): Time { if call.Submit? then call.at else call.step.at }

  ghost predicate CallEnabled(s: Store, call: Call)
  {
    match call
    case Submit(operation, job, _, at) => Fresh(operation, job, at)
    case Perform(step) => !step.Create? && Enabled(s, step)
  }

  /** The records a submission brings along. */
  function SubmitRecords(job: Job, at: Time): Result<Change, Error>
  {
    EventRecords(job, Accepted, "", EventKindOf(job.status), at)
  }

  /** The repository's own decision: the step a call amounts to, or none when it replays or refuses. */
  ghost function StepOf(s: Store, call: Call, limits: Limits): Option<Step>
  {
    match call
    case Perform(step) => Some(step)
    case Submit(operation, job, budgetOk, at) =>
      var records := SubmitRecords(job, at);
      if records.Success? && Admits(s, operation, job, records.value.event, records.value.outbox, limits, budgetOk)
      then Some(Create(operation, job, at)) else None
  }

  ghost function Called(s: Store, call: Call, limits: Limits): Store
  {
    var step := StepOf(s, call, limits);
    if step.Some? then Apply(s, step.value) else s
  }

  /** Calls at readings that never go back, under fixed limits. */
  ghost predicate CallRun(w: World, calls: seq<Call>, limits: Limits, w': World)
    decreases |calls|
  {
    if calls == [] then w'.store == w.store && w'.clock >= w.clock
    else
      && CallEnabled(w.store, calls[0]) && CallTime(calls[0]) >= w.clock
      && CallRun(World(Called(w.store, calls[0], limits), CallTime(calls[0])), calls[1..], limits, w')
  }

  /** Whatever the repository decides to create is within the limits and new to its idempotency scope. */
  lemma DecisionAdmitted(s: Store, call: Call, limits: Limits)
    requires CallEnabled(s, call) && StepOf(s, call, limits).Some?
    ensures Enabled(s, StepOf(s, call, limits).value) && Admitted(s, StepOf(s, call, limits).value, limits)
  {
    hide QueueCounts, WithinLimits, OutboxInsertable;
  }

  /** A step that puts a job with unknown outcome back into the queue. */
  ghost predicate Revives(s: Store, step: Step)
  {
    && (step.Move? || step.Retry?) && step.id in s.jobs && step.id in Apply(s, step).jobs
    && s.jobs[step.id].status == Unknown && Apply(s, step).jobs[step.id].status == Queued
  }

  /** How many unknown jobs the calls put back into the queue. */
  ghost function Revivals(s: Store, calls: seq<Call>, limits: Limits): nat
    decreases |calls|
  {
    if calls == [] then 0
    else CallRevivals(s, calls[0], limits) + Revivals(Called(s, calls[0], limits), calls[1..], limits)
  }

  ghost function CallRevivals(s: Store, call: Call, limits: Limits): nat
  {
    var step := StepOf(s, call, limits);
    if step.Some? then |Revived(s, step.value)| else 0
  }

  lemma NeverAccepted(s: Store, id: string)
    requires Consistent(s) && id in s.jobs
    ensures s.jobs[id].status != Accepted
  {
    HistoryOf(s, id);
    assert PathStep(s.events, id, s.jobs[id].statusVersion);
  }

  ghost function Revived(s: Store, step: Step): set<string>
  {
    if Revives(s, step) then {step.id} else {}
  }

  ghost function Newcomer(step: Step, level: Level): set<string>
  {
    if step.Create? && InLevel(step.job.scope, level) then {step.job.id} else {}
  }

  lemma EntryByTable(job: Job, to: Status, reason: string)
    requires TransitionAllowed(job.status, to, reason) && CountsTowardQueue(to)
    requires !CountsTowardQueue(job.status) && job.status != Accepted
    ensures job.status == Unknown && to == Queued
  {
  }

  lemma CancelLeavesQueue(s: Store, id: string, allowed: bool, reason: string, at: Time)
    ensures var r := Cancel(s, id, allowed, reason, at);
            r.Success? && r.value.Some? ==> !CountsTowardQueue(r.value.value.job.status)
  {
    hide OutboxInsertable;
  }

  /** Only a revival lets a job that was outside the queue enter it again. */
  lemma QueueEntry(s: Store, step: Step, i: string)
    requires Consistent(s) && Enabled(s, step) && i in s.jobs
    requires i in Apply(s, step).jobs && CountsTowardQueue(Apply(s, step).jobs[i].status)
    requires !CountsTowardQueue(s.jobs[i].status)
    ensures i in Revived(s, step)
  {
    hide Consistent, OutboxInsertable, Cancel, TransitionAllowed, JobHistory;
    NeverAccepted(s, i);
    HistoryOf(s, i);
    match step
    case Create(operation, job, at) =>
    case Claim(picks, lease, at) =>
      ClaimBatch(s, picks, at, lease, []);
    case ExtendLease(id, version, fence, token, until, at) =>
    case Move(id, version, fence, to, reason, at) =>
      MoveEntry(s, id, version, fence, to, reason, at, i);
    case Retry(id, version, fence, reason, next, at) =>
      RetryEntry(s, id, version, fence, reason, next, at, i);
    case Abandon(id, allowed, reason, at) =>
      CancelLeavesQueue(s, id, allowed, reason, at);
  }

  lemma MoveEntry(s: Store, id: string, version: int, fence: int, to: Status, reason: string, at: Time, i: string)
    requires Consistent(s) && i in s.jobs && s.jobs[i].status != Accepted && !CountsTowardQueue(s.jobs[i].status)
    requires var t := RecordedIf(s, Transition(s, id, version, fence, to, reason, at), at);
             i in t.jobs && CountsTowardQueue(t.jobs[i].status)
    ensures i == id && s.jobs[id].status == Unknown
    ensures RecordedIf(s, Transition(s, id, version, fence, to, reason, at), at).jobs[id].status == Queued
  {
    hide Consistent, OutboxInsertable, TransitionAllowed;
    if id in s.jobs {
      HistoryOf(s, id);
      if TransitionAllowed(s.jobs[id].status, to, reason) && i == id && CountsTowardQueue(to) {
        EntryByTable(s.jobs[id], to, reason);
      }
    }
  }

  lemma RetryEntry(s: Store, id: string, version: int, fence: int, reason: string, next: Time, at: Time, i: string)
    requires Consistent(s) && i in s.jobs && s.jobs[i].status != Accepted && !CountsTowardQueue(s.jobs[i].status)
    requires var t := RecordedIf(s, Requeue(s, id, version, fence, reason, next, at), at);
             i in t.jobs && CountsTowardQueue(t.jobs[i].status)
    ensures i == id && s.jobs[id].status == Unknown
    ensures RecordedIf(s, Requeue(s, id, version, fence, reason, next, at), at).jobs[id].status == Queued
  {
    hide Consistent, OutboxInsertable, TransitionAllowed;
    if id in s.jobs {
      HistoryOf(s, id);
      if TransitionAllowed(s.jobs[id].status, Queued, reason) && i == id {
        EntryByTable(s.jobs[id], Queued, reason);
      }
    }
  }

  lemma StepMembers(s: Store, step: Step, level: Level)
    requires Consistent(s) && Enabled(s, step)
    ensures QueueMembers(Apply(s, step).jobs, level)
         <= QueueMembers(s.jobs, level) + Revived(s, step) + Newcomer(step, level)
  {
    hide Consistent, Apply, Revived, Enabled, InLevel;
    var t := Apply(s, step);
    forall i | i in QueueMembers(t.jobs, level)
      ensures i in QueueMembers(s.jobs, level) + Revived(s, step) + Newcomer(step, level)
    {
      if i in s.jobs {
        StepAdvances(s, step, 0, i);
        if !CountsTowardQueue(s.jobs[i].status) {
          QueueEntry(s, step, i);
        }
      } else {
        NewJobOnly(s, step, i);
      }
    }
  }

  lemma StepCount(s: Store, step: Step, limits: Limits, level: Level, bound: int)
    requires Consistent(s) && Enabled(s, step) && Admitted(s, step, limits)
    requires LimitAt(limits, level) > 0 && bound >= LimitAt(limits, level)
    requires |QueueMembers(s.jobs, level)| <= bound
    ensures |QueueMembers(Apply(s, step).jobs, level)| <= bound + |Revived(s, step)|
  {
    hide Consistent, Apply, Enabled, QueueMembers, Revives, QueueCounts, WithinLimits;
    StepMembers(s, step, level);
    var before, after := QueueMembers(s.jobs, level), QueueMembers(Apply(s, step).jobs, level);
    SubsetCard(after, before + Revived(s, step) + Newcomer(step, level));
    if Newcomer(step, level) != {} {
      NotRevival(s, step);
      LevelCovered(s.jobs, step.job.scope, level, limits);
    }
  }

  lemma NotRevival(s: Store, step: Step)
    requires step.Create?
    ensures !Revives(s, step)
  {
  }

  lemma LevelCovered(jobs: map<string, Job>, scope: Scope, level: Level, limits: Limits)
    requires InLevel(scope, level) && LimitAt(limits, level) > 0
    requires WithinLimits(limits, QueueCounts(jobs, scope))
    ensures |QueueMembers(jobs, level)| < LimitAt(limits, level)
  {
    hide QueueMembers;
  }

  /**
   With fixed limits, the queued and dispatched jobs of a limited scope never exceed the limit
   by more than the jobs whose unknown outcome was resolved back into the queue.
   */
  lemma {:induction false} QueueBounded(w: World, calls: seq<Call>, w': World, limits: Limits, level: Level, bound: int)
    requires Consistent(w.store) && CallRun(w, calls, limits, w')
    requires LimitAt(limits, level) > 0 && bound >= LimitAt(limits, level)
    requires |QueueMembers(w.store.jobs, level)| <= bound
    ensures |QueueMembers(w'.store.jobs, level)| <= bound + Revivals(w.store, calls, limits)
    decreases |calls|
  {
    hide Consistent, Apply, StepOf, CallEnabled, QueueMembers, LimitAt, Revived, Enabled, Admitted;
    if calls != [] {
      var t := Called(w.store, calls[0], limits);
      CallKeeps(w.store, calls[0], limits);
      if StepOf(w.store, calls[0], limits).Some? {
        DecisionAdmitted(w.store, calls[0], limits);
        StepCount(w.store, StepOf(w.store, calls[0], limits).value, limits, level, bound);
      }
      QueueBounded(World(t, CallTime(calls[0])), calls[1..], w', limits, level,
          bound + CallRevivals(w.store, calls[0], limits));
    }
  }

  lemma CallKeeps(s: Store, call: Call, limits: Limits)
    requires Consistent(s) && CallEnabled(s, call)
    ensures Consistent(Called(s, call, limits))
  {
    hide Consistent, Apply, StepOf, CallEnabled, Enabled, Admitted;
    if StepOf(s, call, limits).Some? {
      DecisionAdmitted(s, call, limits);
      StepConsistent(s, StepOf(s, call, limits).value);
    }
  }

  /** From an empty store the bound is the limit itself. */
  lemma QueueBoundedFromEmpty(calls: seq<Call>, w: World, limits: Limits, level: Level)
    requires CallRun(World(EMPTY, 0), calls, limits, w) && LimitAt(limits, level) > 0
    ensures |QueueMembers(w.store.jobs, level)| <= LimitAt(limits, level) + Revivals(EMPTY, calls, limits)
  {
    hide CallRun, Revivals, LimitAt;
    EmptyConsistent();
    assert QueueMembers(EMPTY.jobs, level) == {};
    QueueBounded(World(EMPTY, 0), calls, w, limits, level, LimitAt(limits, level));
  }

  ghost predicate OneJobPerScope(jobs: map<string, Job>)
  {
    forall a, b :: a in jobs && b in jobs && SameIdempotencyScope(jobs[a], jobs[b]) ==> a == b
  }

  lemma StepOneJobPerScope(s: Store, step: Step, limits: Limits)
    requires Consistent(s) && OneJobPerScope(s.jobs) && Enabled(s, step) && Admitted(s, step, limits)
    ensures OneJobPerScope(Apply(s, step).jobs)
  {
    hide Consistent, Apply, Enabled, WithinLimits, QueueCounts;
    var t := Apply(s, step);
    forall a, b | a in t.jobs && b in t.jobs && SameIdempotencyScope(t.jobs[a], t.jobs[b])
      ensures a == b
    {
      if a in s.jobs {
        StepAdvances(s, step, 0, a);
      } else {
        NewJobOnly(s, step, a);
      }
      if b in s.jobs {
        StepAdvances(s, step, 0, b);
      } else {
        NewJobOnly(s, step, b);
      }
    }
  }

  /** Every idempotency scope owns at most one job, in every state the calls reach. */
  lemma {:induction false} IdempotencyUnique(w: World, calls: seq<Call>, w': World, limits: Limits)
    requires Consistent(w.store) && OneJobPerScope(w.store.jobs) && CallRun(w, calls, limits, w')
    ensures OneJobPerScope(w'.store.jobs) && Consistent(w'.store)
    decreases |calls|
  {
    hide Consistent, Apply, StepOf, CallEnabled, Enabled, Admitted, OneJobPerScope;
    if calls != [] {
      CallKeeps(w.store, calls[0], limits);
      if StepOf(w.store, calls[0], limits).Some? {
        DecisionAdmitted(w.store, calls[0], limits);
        StepOneJobPerScope(w.store, StepOf(w.store, calls[0], limits).value, limits);
      }
      IdempotencyUnique(World(Called(w.store, calls[0], limits), CallTime(calls[0])), calls[1..], w', limits);
    }
  }

  /** So a submission that finds a job of its scope, after any calls from an empty store, finds the only one. */
  lemma ReplayUnique(calls: seq<Call>, w: World, limits: Limits, job: Job, a: string, b: string)
    requires CallRun(World(EMPTY, 0), calls, limits, w) && a in w.store.jobs && b in w.store.jobs
    requires SameIdempotencyScope(w.store.jobs[a], job) && SameIdempotencyScope(w.store.jobs[b], job)
    ensures a == b
  {
    hide CallRun, Consistent;
    EmptyConsistent();
    IdempotencyUnique(World(EMPTY, 0), calls, w, limits);
  }
}
