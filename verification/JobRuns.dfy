/** What every execution of the job store keeps: fences, versions, leases and eligibility times. */
module JobRuns {
  import opened Base
  import opened JobModel
  import opened FairQueue
  import opened JobStore
  import opened JobSteps
  import FairQuery

  datatype World = World(store: Store, clock: Time)

  const EMPTY := Store(map[], map[], map[], map[])

  /** Steps happen at readings that never go back; time may also pass without a step. */
  ghost predicate Execution(w: World, steps: seq<Step>, w': World)
    decreases |steps|
  {
    if steps == [] then w'.store == w.store && w'.clock >= w.clock
    else
      && Enabled(w.store, steps[0]) && steps[0].at >= w.clock
      && Execution(World(Apply(w.store, steps[0]), steps[0].at), steps[1..], w')
  }

  /** How a stored job may differ at a later time, given the clock at the earlier one. */
  predicate Advances(a: Job, b: Job, clock: Time)
  {
    && b.id == a.id && b.operationId == a.operationId && b.scope == a.scope && b.createdAt == a.createdAt
    && b.credentialId == a.credentialId && b.operation == a.operation && b.idempotencyKey == a.idempotencyKey
    && b.statusVersion >= a.statusVersion && b.fenceToken >= a.fenceToken
    && (b.statusVersion == a.statusVersion ==> SameClaim(a, b, clock))
  }

  /** Within one version only the lease may move: it never shrinks, appears, or revives. */
  predicate SameClaim(a: Job, b: Job, clock: Time)
  {
    && b.status == a.status && b.fenceToken == a.fenceToken && b.leaseToken == a.leaseToken
    && b.nextEligibleAt == a.nextEligibleAt
    && (a.leaseUntil.None? ==> b.leaseUntil.None?)
    && (a.leaseUntil.Some? ==> b.leaseUntil.Some? && b.leaseUntil.value >= a.leaseUntil.value)
    && (a.leaseUntil.Some? && a.leaseUntil.value <= clock ==> b.leaseUntil == a.leaseUntil)
  }

  lemma AdvancesTransitive(a: Job, b: Job, c: Job, t: Time, u: Time)
    requires Advances(a, b, t) && Advances(b, c, u) && t <= u
    ensures Advances(a, c, t)
  {
  }

  ghost predicate Timed(s: Store, clock: Time)
  {
    forall id :: id in s.jobs ==> s.jobs[id].createdAt <= clock && FairQuery.EligibleAfterCreation(s.jobs[id])
  }

  /** A change that advances its job, at a time not before the clock. */
  predicate GoodChange(s: Store, c: Change, clock: Time)
  {
    && c.job.id in s.jobs && Advances(s.jobs[c.job.id], c.job, clock)
    && (c.job.nextEligibleAt == s.jobs[c.job.id].nextEligibleAt || c.job.nextEligibleAt >= clock)
  }

  lemma MoveGood(s: Store, id: string, version: int, fence: int, to: Status, reason: string, at: Time, clock: Time)
    requires Consistent(s) && clock <= at
    ensures var r := Transition(s, id, version, fence, to, reason, at);
            r.Success? && r.value.Some? ==> r.value.value.job.id == id && GoodChange(s, r.value.value, clock)
  {
    hide Consistent, OutboxInsertable, JobHistory, TransitionAllowed;
    if id in s.jobs { HistoryOf(s, id); }
  }

  lemma RetryGood(s: Store, id: string, version: int, fence: int, reason: string, next: Time, at: Time, clock: Time)
    requires Consistent(s) && clock <= at
    ensures var r := Requeue(s, id, version, fence, reason, next, at);
            r.Success? && r.value.Some? ==> r.value.value.job.id == id && GoodChange(s, r.value.value, clock)
  {
    hide Consistent, OutboxInsertable, JobHistory, TransitionAllowed;
    if id in s.jobs { HistoryOf(s, id); }
  }

  lemma AbandonGood(s: Store, id: string, allowed: bool, reason: string, at: Time, clock: Time)
    requires Consistent(s) && clock <= at
    ensures var r := Cancel(s, id, allowed, reason, at);
            r.Success? && r.value.Some? ==> r.value.value.job.id == id && GoodChange(s, r.value.value, clock)
  {
    hide Consistent, OutboxInsertable, JobHistory, TransitionAllowed;
    if id in s.jobs { HistoryOf(s, id); }
  }

  lemma ExtendAdvances(s: Store, id: string, version: int, fence: int, token: string, until: Time, at: Time,
      clock: Time, i: string)
    requires i in s.jobs && clock <= at
    ensures var t := Extend(s, id, version, fence, token, until, at);
            i in t.jobs && Advances(s.jobs[i], t.jobs[i], clock) && t.jobs[i].nextEligibleAt == s.jobs[i].nextEligibleAt
  {
  }

  lemma RecordedAdvances(s: Store, r: Result<Option<Change>, Error>, at: Time, clock: Time, i: string)
    requires r.Success? && r.value.Some? ==> GoodChange(s, r.value.value, clock)
    requires i in s.jobs
    ensures var t := RecordedIf(s, r, at);
            && t.jobs.Keys == s.jobs.Keys && Advances(s.jobs[i], t.jobs[i], clock)
            && (t.jobs[i].nextEligibleAt == s.jobs[i].nextEligibleAt || t.jobs[i].nextEligibleAt >= clock)
  {
  }

  /** One step advances every stored job. */
  lemma StepAdvances(s: Store, step: Step, clock: Time, i: string)
    requires Consistent(s) && Enabled(s, step) && clock <= step.at && i in s.jobs
    ensures var t := Apply(s, step);
            && i in t.jobs && Advances(s.jobs[i], t.jobs[i], clock)
            && (t.jobs[i].nextEligibleAt == s.jobs[i].nextEligibleAt || t.jobs[i].nextEligibleAt >= clock)
  {
    hide Consistent, RecordedIf, Transition, Requeue, Cancel, Extend, ClaimAll, Advances, GoodChange;
    match step
    case Create(operation, job, at) =>
      AdvancesReflexive(s.jobs[i], clock);
    case Claim(picks, lease, at) =>
      ClaimBatch(s, picks, at, lease, []);
      AdvancesReflexive(s.jobs[i], clock);
      ClaimAdvances(s.jobs[i], at, lease, clock);
    case ExtendLease(id, version, fence, token, until, at) =>
      ExtendAdvances(s, id, version, fence, token, until, at, clock, i);
    case Move(id, version, fence, to, reason, at) =>
      MoveGood(s, id, version, fence, to, reason, at, clock);
      RecordedAdvances(s, Transition(s, id, version, fence, to, reason, at), at, clock, i);
    case Retry(id, version, fence, reason, next, at) =>
      RetryGood(s, id, version, fence, reason, next, at, clock);
      RecordedAdvances(s, Requeue(s, id, version, fence, reason, next, at), at, clock, i);
    case Abandon(id, allowed, reason, at) =>
      AbandonGood(s, id, allowed, reason, at, clock);
      RecordedAdvances(s, Cancel(s, id, allowed, reason, at), at, clock, i);
  }

  lemma AdvancesReflexive(job: Job, clock: Time)
    ensures Advances(job, job, clock)
  {
  }

  /** A claim always raises both the fence and the version. */
  lemma ClaimAdvances(job: Job, at: Time, lease: Lease, clock: Time)
    ensures Advances(job, ClaimedJob(job, at, lease), clock)
    ensures ClaimedJob(job, at, lease).fenceToken == job.fenceToken + 1
    ensures ClaimedJob(job, at, lease).statusVersion == job.statusVersion + 1
    ensures ClaimedJob(job, at, lease).nextEligibleAt == job.nextEligibleAt
  {
  }

  lemma NewJobOnly(s: Store, step: Step, i: string)
    requires Consistent(s) && Enabled(s, step) && i in Apply(s, step).jobs && i !in s.jobs
    ensures step.Create? && i == step.job.id && Apply(s, step).jobs[i] == step.job
  {
    hide Consistent, RecordedIf, Transition, Requeue, Cancel, ClaimAll, Claimable, GoodChange, Extendable;
    match step
    case Create(operation, job, at) =>
    case Claim(picks, lease, at) =>
      ClaimBatch(s, picks, at, lease, []);
    case ExtendLease(id, version, fence, token, until, at) =>
      ExtendKeys(s, id, version, fence, token, until, at);
    case Move(id, version, fence, to, reason, at) =>
      MoveGood(s, id, version, fence, to, reason, at, 0);
      RecordedKeys(s, Transition(s, id, version, fence, to, reason, at), at);
    case Retry(id, version, fence, reason, next, at) =>
      RetryGood(s, id, version, fence, reason, next, at, 0);
      RecordedKeys(s, Requeue(s, id, version, fence, reason, next, at), at);
    case Abandon(id, allowed, reason, at) =>
      AbandonGood(s, id, allowed, reason, at, 0);
      RecordedKeys(s, Cancel(s, id, allowed, reason, at), at);
  }

  lemma RecordedKeys(s: Store, r: Result<Option<Change>, Error>, at: Time)
    requires r.Success? && r.value.Some? ==> GoodChange(s, r.value.value, 0)
    ensures RecordedIf(s, r, at).jobs.Keys == s.jobs.Keys
  {
    hide ApplyOperationStatus;
  }

  lemma ExtendKeys(s: Store, id: string, version: int, fence: int, token: string, until: Time, at: Time)
    ensures Extend(s, id, version, fence, token, until, at).jobs.Keys == s.jobs.Keys
  {
  }

  lemma StepTimed(s: Store, step: Step, clock: Time)
    requires Consistent(s) && Timed(s, clock) && Enabled(s, step) && clock <= step.at
    ensures Timed(Apply(s, step), step.at)
  {
    hide Consistent, Apply;
    var t := Apply(s, step);
    forall i | i in t.jobs
      ensures t.jobs[i].createdAt <= step.at && FairQuery.EligibleAfterCreation(t.jobs[i])
    {
      if i in s.jobs {
        StepAdvances(s, step, clock, i);
      } else {
        NewJobOnly(s, step, i);
      }
    }
  }

  /**
   Every reachable state: histories are connected paths of allowed transitions with versions
   1..n, operations are their projection, and no job is eligible before it was created.
   */
  lemma {:induction false} Reachable(w: World, steps: seq<Step>, w': World)
    requires Consistent(w.store) && Timed(w.store, w.clock)
    requires Execution(w, steps, w')
    ensures Consistent(w'.store) && Timed(w'.store, w'.clock) && w.clock <= w'.clock
    decreases |steps|
  {
    hide Consistent, Apply, Enabled;
    if steps != [] {
      StepConsistent(w.store, steps[0]);
      StepTimed(w.store, steps[0], w.clock);
      Reachable(World(Apply(w.store, steps[0]), steps[0].at), steps[1..], w');
    }
  }

  lemma EmptyConsistent()
    ensures Consistent(EMPTY) && Timed(EMPTY, 0)
  {
  }

  /** Over any run fences and versions never fall, and within one version a lease only grows while alive. */
  lemma {:induction false} RunAdvances(w: World, steps: seq<Step>, w': World, i: string)
    requires Consistent(w.store) && Execution(w, steps, w') && i in w.store.jobs
    ensures i in w'.store.jobs && Advances(w.store.jobs[i], w'.store.jobs[i], w.clock)
    decreases |steps|
  {
    hide Consistent, Apply, Enabled, Advances;
    AdvancesReflexive(w.store.jobs[i], w.clock);
    if steps != [] {
      var m := World(Apply(w.store, steps[0]), steps[0].at);
      StepConsistent(w.store, steps[0]);
      StepAdvances(w.store, steps[0], w.clock, i);
      RunAdvances(m, steps[1..], w', i);
      AdvancesTransitive(w.store.jobs[i], m.store.jobs[i], w'.store.jobs[i], w.clock, m.clock);
    }
  }

  ghost function Activities(s: Store): set<Activity>
  {
    set k | k in s.events && s.events[k].kind == EventScheduled && s.events[k].jobId in s.jobs ::
      Activity(s.jobs[s.events[k].jobId].scope, s.events[k].at)
  }

  lemma StoredIdsDistinct(s: Store)
    requires Consistent(s)
    ensures DistinctIds(s.jobs.Values)
  {
    hide JobHistory;
    forall a, b | a in s.jobs.Values && b in s.jobs.Values && a.id == b.id
      ensures a == b
    {
      var i :| i in s.jobs && s.jobs[i] == a;
      var j :| j in s.jobs && s.jobs[j] == b;
    }
  }

  /** In every reachable state the pruned database ranking claims what the full ranking claims. */
  lemma ReachablePruning(steps: seq<Step>, w: World, limit: nat, now: Time, full: Stats, query: Stats)
    requires Execution(World(EMPTY, 0), steps, w)
    requires StatsOf(full, w.store.jobs.Values, Activities(w.store))
    requires StatsOf(query, FairQuery.InFlightRows(w.store.jobs.Values),
              FairQuery.LatestPerPrincipal(Activities(w.store)))
    ensures var rows := FairQuery.ReadyRows(w.store.jobs.Values, now);
            var kept := FairQuery.Pruned(rows, now, limit);
            && DistinctIds(rows) && DistinctIds(kept)
            && Rank(kept, now, query, |kept|)[..Min(limit, |kept|)] == Rank(rows, now, full, limit)
  {
    hide Consistent, Execution, StatsOf, Activities, FairQuery.ReadyRows, FairQuery.Pruned, Rank, DistinctIds;
    EmptyConsistent();
    Reachable(World(EMPTY, 0), steps, w);
    StoredIdsDistinct(w.store);
    forall j | j in w.store.jobs.Values
      ensures FairQuery.SamePriority(j, now)
    {
      FairQuery.PriorityAgrees(j, now);
    }
    FairQuery.PruningLossless(w.store.jobs.Values, Activities(w.store), now, limit, full, query);
  }

  // ---- Leases ----

  predicate LeaseShape(job: Job)
  {
    if job.status == Dispatching then job.leaseUntil.Some? && job.leaseUntil.value > 0 && job.leaseToken != "" &&
        job.fenceToken >= 1
    else job.leaseUntil.None? && job.leaseToken == ""
  }

  /** A dispatched job holds a lease with a token and a fence; no other job holds one. */
  ghost predicate Leases(s: Store)
  {
    forall id :: id in s.jobs ==> LeaseShape(s.jobs[id]) && s.jobs[id].fenceToken >= 0
  }

  /** Dispatch is entered through a claim, never through the generic transition. */
  predicate ClaimsOnly(step: Step) { step.Move? ==> step.to != Dispatching }

  predicate Shaped(r: Result<Option<Change>, Error>)
  {
    r.Success? && r.value.Some? ==> LeaseShape(r.value.value.job) && r.value.value.job.fenceToken >= 0
  }

  lemma MoveShaped(s: Store, id: string, version: int, fence: int, to: Status, reason: string, at: Time)
    requires Leases(s)
    requires !(to == Dispatching && Fenced(s, id, version, fence) && s.jobs[id].status == Queued)
    ensures Shaped(Transition(s, id, version, fence, to, reason, at))
  {
    hide OutboxInsertable;
  }

  lemma RetryShaped(s: Store, id: string, version: int, fence: int, reason: string, next: Time, at: Time)
    requires Leases(s)
    ensures Shaped(Requeue(s, id, version, fence, reason, next, at))
  {
    hide OutboxInsertable;
  }

  lemma AbandonShaped(s: Store, id: string, allowed: bool, reason: string, at: Time)
    requires Leases(s)
    ensures Shaped(Cancel(s, id, allowed, reason, at))
  {
    hide OutboxInsertable;
  }

  lemma ShapedLeases(s: Store, r: Result<Option<Change>, Error>, at: Time)
    requires Leases(s) && Shaped(r)
    ensures Leases(RecordedIf(s, r, at))
  {
    hide LeaseShape;
  }

  lemma StepLeases(s: Store, step: Step)
    requires Consistent(s) && Leases(s) && Enabled(s, step) && ClaimsOnly(step)
    ensures Leases(Apply(s, step))
  {
    hide Consistent, Transition, Requeue, Cancel, RecordedIf, ClaimAll, Shaped;
    match step
    case Create(operation, job, at) =>
    case Claim(picks, lease, at) =>
      ClaimBatch(s, picks, at, lease, []);
    case ExtendLease(id, version, fence, token, until, at) =>
    case Move(id, version, fence, to, reason, at) =>
      MoveShaped(s, id, version, fence, to, reason, at);
      ShapedLeases(s, Transition(s, id, version, fence, to, reason, at), at);
    case Retry(id, version, fence, reason, next, at) =>
      RetryShaped(s, id, version, fence, reason, next, at);
      ShapedLeases(s, Requeue(s, id, version, fence, reason, next, at), at);
    case Abandon(id, allowed, reason, at) =>
      AbandonShaped(s, id, allowed, reason, at);
      ShapedLeases(s, Cancel(s, id, allowed, reason, at), at);
  }

  /** The generic transition breaks the lease law exactly when it is asked to dispatch a queued job. */
  lemma MoveLeases(s: Store, id: string, version: int, fence: int, to: Status, reason: string, at: Time)
    requires Consistent(s) && Leases(s)
    ensures var r := Transition(s, id, version, fence, to, reason, at);
            Leases(RecordedIf(s, r, at)) <==>
                !(to == Dispatching && Fenced(s, id, version, fence) && s.jobs[id].status == Queued)
  {
    if to == Dispatching && Fenced(s, id, version, fence) && s.jobs[id].status == Queued {
      hide JobHistory;
      TransitionFollows(s, id, to, reason, at);
      var c := PrepareTransition(s.jobs[id], to, reason, at).value;
      NoCollision(s, c);
      assert !LeaseShape(RecordedIf(s, Success(Some(c)), at).jobs[id]);
    } else {
      MoveShaped(s, id, version, fence, to, reason, at);
      ShapedLeases(s, Transition(s, id, version, fence, to, reason, at), at);
    }
  }

  /** Jobs carry the owner and creation time an index entry needs. */
  ghost predicate Owned(s: Store)
  {
    forall id :: id in s.jobs ==>
      s.jobs[id].scope.applicationId != "" && s.jobs[id].scope.principalId != "" && s.jobs[id].createdAt != ZERO_TIME
  }

  lemma StepOwned(s: Store, step: Step)
    requires Consistent(s) && Owned(s) && Enabled(s, step)
    ensures Owned(Apply(s, step))
  {
    hide Consistent, Apply;
    var t := Apply(s, step);
    forall i | i in t.jobs
      ensures t.jobs[i].scope.applicationId != "" && t.jobs[i].scope.principalId != ""
      ensures t.jobs[i].createdAt != ZERO_TIME
    {
      if i in s.jobs {
        StepAdvances(s, step, 0, i);
      } else {
        NewJobOnly(s, step, i);
      }
    }
  }

  lemma {:induction false} RunLeases(w: World, steps: seq<Step>, w': World)
    requires Consistent(w.store) && Leases(w.store) && Execution(w, steps, w')
    requires forall i :: 0 <= i < |steps| ==> ClaimsOnly(steps[i])
    ensures Leases(w'.store)
    decreases |steps|
  {
    hide Consistent, Apply, Enabled, ClaimsOnly, LeaseShape;
    if steps != [] {
      StepConsistent(w.store, steps[0]);
      StepLeases(w.store, steps[0]);
      RunLeases(World(Apply(w.store, steps[0]), steps[0].at), steps[1..], w');
    }
  }

  // ---- Finished jobs ----

  /** A finished job: it may only expire, under the same fence, and an expired one never changes. */
  predicate Finishes(a: Job, b: Job)
  {
    Terminal(b.status) && b.fenceToken == a.fenceToken && (b == a || b.status == Expired) &&
        (a.status == Expired ==> b == a)
  }

  ghost predicate ChangeFinishes(s: Store, r: Result<Option<Change>, Error>)
  {
    r.Success? && r.value.Some? && r.value.value.job.id in s.jobs && Terminal(s.jobs[r.value.value.job.id].status) ==>
      Finishes(s.jobs[r.value.value.job.id], r.value.value.job)
  }

  lemma MoveFinishes(s: Store, id: string, version: int, fence: int, to: Status, reason: string, at: Time)
    requires Consistent(s)
    ensures ChangeFinishes(s, Transition(s, id, version, fence, to, reason, at))
  {
    hide Consistent, OutboxInsertable, JobHistory;
    if id in s.jobs { HistoryOf(s, id); }
  }

  lemma RetryFinishes(s: Store, id: string, version: int, fence: int, reason: string, next: Time, at: Time)
    requires Consistent(s)
    ensures ChangeFinishes(s, Requeue(s, id, version, fence, reason, next, at))
  {
    hide Consistent, OutboxInsertable, JobHistory;
    if id in s.jobs { HistoryOf(s, id); }
  }

  lemma AbandonFinishes(s: Store, id: string, allowed: bool, reason: string, at: Time)
    requires Consistent(s)
    ensures ChangeFinishes(s, Cancel(s, id, allowed, reason, at))
  {
    hide Consistent, OutboxInsertable, JobHistory;
    if id in s.jobs { HistoryOf(s, id); }
  }

  lemma RecordedFinishes(s: Store, r: Result<Option<Change>, Error>, at: Time, i: string)
    requires ChangeFinishes(s, r) && i in s.jobs && Terminal(s.jobs[i].status)
    ensures i in RecordedIf(s, r, at).jobs && Finishes(s.jobs[i], RecordedIf(s, r, at).jobs[i])
  {
    hide ApplyOperationStatus;
  }

  lemma StepFinishes(s: Store, step: Step, i: string)
    requires Consistent(s) && Enabled(s, step) && i in s.jobs && Terminal(s.jobs[i].status)
    ensures i in Apply(s, step).jobs && Finishes(s.jobs[i], Apply(s, step).jobs[i])
  {
    hide Consistent, RecordedIf, Transition, Requeue, Cancel, ClaimAll, ChangeFinishes;
    match step
    case Create(operation, job, at) =>
    case Claim(picks, lease, at) =>
      ClaimBatch(s, picks, at, lease, []);
    case ExtendLease(id, version, fence, token, until, at) =>
    case Move(id, version, fence, to, reason, at) =>
      MoveFinishes(s, id, version, fence, to, reason, at);
      RecordedFinishes(s, Transition(s, id, version, fence, to, reason, at), at, i);
    case Retry(id, version, fence, reason, next, at) =>
      RetryFinishes(s, id, version, fence, reason, next, at);
      RecordedFinishes(s, Requeue(s, id, version, fence, reason, next, at), at, i);
    case Abandon(id, allowed, reason, at) =>
      AbandonFinishes(s, id, allowed, reason, at);
      RecordedFinishes(s, Cancel(s, id, allowed, reason, at), at, i);
  }

  /** Over any run a finished job is never claimed, requeued or revived: it stays finished under its last fence. */
  lemma {:induction false} FinishedForever(w: World, steps: seq<Step>, w': World, i: string)
    requires Consistent(w.store) && Execution(w, steps, w') && i in w.store.jobs && Terminal(w.store.jobs[i].status)
    ensures i in w'.store.jobs && Finishes(w.store.jobs[i], w'.store.jobs[i])
    decreases |steps|
  {
    hide Consistent, Apply, Enabled;
    if steps != [] {
      StepConsistent(w.store, steps[0]);
      StepFinishes(w.store, steps[0], i);
      FinishedForever(World(Apply(w.store, steps[0]), steps[0].at), steps[1..], w', i);
    }
  }
}
