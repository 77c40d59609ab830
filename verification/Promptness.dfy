/** When a job may be claimed, said in its columns, and what a claim writes. */
module Promptness {
  import opened Base
  import opened JobModel
  import opened FairQueue
  import opened JobStore
  import opened JobSteps
  import opened JobRuns
  import opened JobEffects

  /** Not claimable at this time: another status, not yet eligible, or still leased. */
  predicate TooEarly(job: Job, now: Time)
  {
    || job.status !in {Queued, Dispatching}
    || (job.status == Queued && job.nextEligibleAt > now)
    || (job.status == Dispatching && job.leaseUntil == None)
    || (job.leaseUntil.Some? && job.leaseUntil.value > now)
  }

  /** Claimable: queued and eligible without a live lease, or dispatched under a lease that is over. */
  predicate Overdue(job: Job, now: Time)
  {
    || (job.status == Queued && job.nextEligibleAt <= now && (job.leaseUntil == None || job.leaseUntil.value <= now))
    || (job.status == Dispatching && job.leaseUntil.Some? && job.leaseUntil.value <= now)
  }

  lemma ReadyExactly(job: Job, now: Time)
    ensures ReadyForClaim(job, now) <==> Overdue(job, now)
    ensures ReadyForClaim(job, now) <==> !TooEarly(job, now)
  {
  }

  /** What a claim makes of a job: dispatched under the lease, one version and one fence later. */
  predicate ClaimOf(was: Job, job: Job, now: Time, lease: Lease)
  {
    && SameIdentity(was, job) && job.status == Dispatching
    && job.statusVersion == was.statusVersion + 1 && job.fenceToken == was.fenceToken + 1
    && job.leaseUntil == Some(lease.until) && job.leaseToken == lease.token && job.workerId == lease.worker
    && job.updatedAt == now && job.nextEligibleAt == was.nextEligibleAt && job.completedAt == was.completedAt
  }

  lemma ClaimWrites(job: Job, now: Time, lease: Lease)
    ensures ClaimOf(job, ClaimedJob(job, now, lease), now, lease)
  {
  }

  /**
   A prompt claim from these jobs: nothing too early is claimed, each claim writes exactly its columns,
   and when the limit is not reached everything overdue was claimed.
   */
  ghost predicate Prompt(was: map<string, Job>, claimed: seq<Job>, now: Time, lease: Lease, limit: nat)
  {
    && |claimed| <= limit
    && (forall j :: j in claimed ==>
          j.id in was && !TooEarly(was[j.id], now) && ClaimOf(was[j.id], j, now, lease))
    && (|claimed| < limit ==> forall id :: id in was && Overdue(was[id], now) ==> id in Ids(claimed))
  }

  // ---- What a claim leaves in the store ----

  /** Event and outbox row of a claim: scheduled from the queue, or the lease reassigned because it was over. */
  ghost predicate ClaimRecorded(t: Store, was: Job, now: Time)
  {
    var k := EventKey(was.id, was.statusVersion + 1);
    var kind := if was.status == Queued then EventScheduled else EventLeaseReassigned;
    var reason := if was.status == Queued then "" else "lease_expired";
    && k in t.events && t.events[k] == Event(was.id, was.statusVersion + 1, kind, was.status, Dispatching, reason, now)
    && k in t.outbox
    && t.outbox[k] == OutboxRow(was.id, kind, was.statusVersion + 1, was.operationId, Dispatching, now)
  }

  /** Nothing recorded before is lost or changed. */
  ghost predicate RecordsKept(s: Store, t: Store)
  {
    && (forall k :: k in s.events ==> k in t.events && t.events[k] == s.events[k])
    && (forall k :: k in s.outbox ==> k in t.outbox && t.outbox[k] == s.outbox[k])
  }

  /** The claimed jobs are stored with one record each; every other job and every earlier record is as before. */
  ghost predicate ClaimLaw(s: Store, t: Store, claimed: seq<Job>, now: Time)
  {
    && t.jobs.Keys == s.jobs.Keys && RecordsKept(s, t)
    && (forall j :: j in claimed ==> j.id in s.jobs && t.jobs[j.id] == j && ClaimRecorded(t, s.jobs[j.id], now))
    && (forall id :: id in s.jobs && id !in Ids(claimed) ==> t.jobs[id] == s.jobs[id])
  }

  lemma ClaimPrepared(job: Job, now: Time, lease: Lease)
    requires ReadyForClaim(job, now) && PrepareClaim(job, now).Success?
    ensures var c := Leased(PrepareClaim(job, now).value, lease);
            var kind := if job.status == Queued then EventScheduled else EventLeaseReassigned;
            var reason := if job.status == Queued then "" else "lease_expired";
            && c.job.id == job.id && c.job.statusVersion == job.statusVersion + 1
            && c.event == Event(job.id, job.statusVersion + 1, kind, job.status, Dispatching, reason, now)
            && c.outbox == OutboxRow(job.id, kind, job.statusVersion + 1, job.operationId, Dispatching, now)
  {
  }

  lemma RecordedKeeps(s: Store, c: Change, at: Time)
    requires Guarded(s, Success(c)) == Success(Some(c))
    ensures RecordsKept(s, Recorded(s, c, at))
    ensures Recorded(s, c, at).events == s.events[KeyOf(c.job) := c.event]
    ensures Recorded(s, c, at).outbox == s.outbox[KeyOf(c.job) := c.outbox]
  {
    hide ApplyOperationStatus;
  }

  /** Every claim of a batch leaves its record, and no record is lost. */
  lemma {:induction false} ClaimRecords(s: Store, picks: seq<Job>, now: Time, lease: Lease, done: seq<Job>)
    requires Consistent(s) && Claimable(s, picks, now)
    ensures var t := ClaimAll(s, picks, now, lease, done).store;
            RecordsKept(s, t) && forall p :: p in picks ==> ClaimRecorded(t, p, now)
    decreases |picks|
  {
    hide Consistent, Follows, ReadyForClaim, PrepareClaim, OutboxInsertable, ClaimedJob, Recorded, Claimable,
         ClaimRecorded;
    if picks != [] {
      FirstClaimable(s, picks, now);
      ClaimFollows(s, picks[0].id, now, lease);
      var c := Leased(PrepareClaim(picks[0], now).value, lease);
      NoCollision(s, c);
      RecordedConsistent(s, c, now);
      var t := Recorded(s, c, now);
      RecordedJobs(s, c, now);
      ClaimKeepsId(picks[0], now, lease);
      RestClaimable(s, t, picks, ClaimedJob(picks[0], now, lease), now);
      ClaimRecords(t, picks[1..], now, lease, done + [c.job]);
      RecordedKeeps(s, c, now);
      ClaimPrepared(picks[0], now, lease);
      FirstRecorded(t, ClaimAll(t, picks[1..], now, lease, done + [c.job]).store, c, picks[0], now);
      assert picks == [picks[0]] + picks[1..];
    }
  }

  lemma FirstRecorded(t: Store, u: Store, c: Change, p: Job, now: Time)
    requires RecordsKept(t, u) && KeyOf(c.job) in t.events && t.events[KeyOf(c.job)] == c.event
    requires KeyOf(c.job) in t.outbox && t.outbox[KeyOf(c.job)] == c.outbox
    requires c.job.id == p.id && c.job.statusVersion == p.statusVersion + 1
    requires var kind := if p.status == Queued then EventScheduled else EventLeaseReassigned;
             var reason := if p.status == Queued then "" else "lease_expired";
             && c.event == Event(p.id, p.statusVersion + 1, kind, p.status, Dispatching, reason, now)
             && c.outbox == OutboxRow(p.id, kind, p.statusVersion + 1, p.operationId, Dispatching, now)
    ensures ClaimRecorded(u, p, now)
  {
  }

  // ---- Backoff ----

  /** Waiting in the queue until its time, or finished without ever being claimed again. */
  predicate BacksOff(job: Job, until: Time, fence: int)
  {
    job.fenceToken == fence && ((job.status == Queued && job.nextEligibleAt >= until) || Terminal(job.status))
  }

  predicate BackoffChange(s: Store, r: Result<Option<Change>, Error>, until: Time, fence: int)
  {
    r.Success? && r.value.Some? && r.value.value.job.id in s.jobs &&
        BacksOff(s.jobs[r.value.value.job.id], until, fence) ==>
      BacksOff(r.value.value.job, until, fence)
  }

  lemma MoveBackoff(s: Store, id: string, version: int, fence: int, to: Status, reason: string, at: Time, until: Time,
      f: int)
    requires Consistent(s) && to != Dispatching
    ensures BackoffChange(s, Transition(s, id, version, fence, to, reason, at), until, f)
  {
    hide Consistent, OutboxInsertable, JobHistory;
    if id in s.jobs { HistoryOf(s, id); }
  }

  lemma RetryBackoff(s: Store, id: string, version: int, fence: int, reason: string, next: Time, at: Time, until: Time,
      f: int)
    requires Consistent(s)
    ensures BackoffChange(s, Requeue(s, id, version, fence, reason, next, at), until, f)
  {
    hide Consistent, OutboxInsertable, JobHistory;
    if id in s.jobs { HistoryOf(s, id); }
  }

  lemma AbandonBackoff(s: Store, id: string, allowed: bool, reason: string, at: Time, until: Time, f: int)
    requires Consistent(s)
    ensures BackoffChange(s, Cancel(s, id, allowed, reason, at), until, f)
  {
    hide Consistent, OutboxInsertable, JobHistory;
    if id in s.jobs { HistoryOf(s, id); }
  }

  lemma RecordedBackoff(s: Store, r: Result<Option<Change>, Error>, at: Time, i: string, until: Time, fence: int)
    requires BackoffChange(s, r, until, fence) && i in s.jobs && BacksOff(s.jobs[i], until, fence)
    ensures i in RecordedIf(s, r, at).jobs && BacksOff(RecordedIf(s, r, at).jobs[i], until, fence)
  {
    hide ApplyOperationStatus, BacksOff;
  }

  lemma ClaimPasses(s: Store, picks: seq<Job>, at: Time, i: string, until: Time, fence: int)
    requires Claimable(s, picks, at) && i in s.jobs && BacksOff(s.jobs[i], until, fence) && at < until
    ensures i !in Ids(picks)
  {
    ReadyExactly(s.jobs[i], at);
    hide ReadyForClaim;
  }

  lemma StepBackoff(s: Store, step: Step, i: string, until: Time, fence: int)
    requires Consistent(s) && Enabled(s, step) && ClaimsOnly(step) && i in s.jobs && BacksOff(s.jobs[i], until, fence)
    requires step.at < until
    ensures i in Apply(s, step).jobs && BacksOff(Apply(s, step).jobs[i], until, fence)
    ensures step.Claim? ==> i !in Ids(step.picks)
  {
    hide Consistent, RecordedIf, Transition, Requeue, Cancel, ClaimAll, BackoffChange, Claimable;
    match step
    case Create(operation, job, at) =>
    case Claim(picks, lease, at) =>
      ClaimBatch(s, picks, at, lease, []);
      ClaimPasses(s, picks, at, i, until, fence);
    case ExtendLease(id, version, f, token, u, at) =>
    case Move(id, version, f, to, reason, at) =>
      MoveBackoff(s, id, version, f, to, reason, at, until, fence);
      RecordedBackoff(s, Transition(s, id, version, f, to, reason, at), at, i, until, fence);
    case Retry(id, version, f, reason, next, at) =>
      RetryBackoff(s, id, version, f, reason, next, at, until, fence);
      RecordedBackoff(s, Requeue(s, id, version, f, reason, next, at), at, i, until, fence);
    case Abandon(id, allowed, reason, at) =>
      AbandonBackoff(s, id, allowed, reason, at, until, fence);
      RecordedBackoff(s, Cancel(s, id, allowed, reason, at), at, i, until, fence);
  }

  /** A job that waits until a time is claimed by no step of any run before that time. */
  lemma {:induction false} BackoffKept(w: World, steps: seq<Step>, w': World, i: string, until: Time)
    requires Consistent(w.store) && Execution(w, steps, w')
    requires forall k :: 0 <= k < |steps| ==> ClaimsOnly(steps[k]) && steps[k].at < until
    requires i in w.store.jobs && BacksOff(w.store.jobs[i], until, w.store.jobs[i].fenceToken)
    ensures i in w'.store.jobs && w'.store.jobs[i].fenceToken == w.store.jobs[i].fenceToken
    ensures w'.store.jobs[i].status != Dispatching
    ensures forall k :: 0 <= k < |steps| && steps[k].Claim? ==> i !in Ids(steps[k].picks)
    decreases |steps|
  {
    hide Consistent, Apply, Enabled, ClaimsOnly;
    if steps != [] {
      var fence := w.store.jobs[i].fenceToken;
      StepConsistent(w.store, steps[0]);
      StepBackoff(w.store, steps[0], i, until, fence);
      BackoffKept(World(Apply(w.store, steps[0]), steps[0].at), steps[1..], w', i, until);
    }
  }

  /** After a requeue no run claims the job before the later of the given and the current time. */
  lemma RequeueBacksOff(s: Store, id: string, version: int, fence: int, reason: string, next: Time, at: Time,
      steps: seq<Step>, w': World)
    requires Consistent(s) && Holds(s, id, version, fence) && Legal(s.jobs[id].status, Queued, reason)
    requires var t := RecordedIf(s, Requeue(s, id, version, fence, reason, next, at), at); Execution(World(t, at),
              steps, w')
    requires forall k :: 0 <= k < |steps| ==> ClaimsOnly(steps[k]) && steps[k].at < Max(next, at)
    ensures id in w'.store.jobs && w'.store.jobs[id].fenceToken == s.jobs[id].fenceToken
    ensures forall k :: 0 <= k < |steps| && steps[k].Claim? ==> id !in Ids(steps[k].picks)
  {
    hide Consistent, Requeue, RecordedIf, Execution, ClaimsOnly, Legal, RecordsMove, Holds;
    RequeueEffect(s, id, version, fence, reason, next, at);
    RetryChange(s, id, version, fence, reason, next, at);
    hide SingleChange;
    SingleConsistent(s, Requeue(s, id, version, fence, reason, next, at), at);
    var t := RecordedIf(s, Requeue(s, id, version, fence, reason, next, at), at);
    assert id in s.jobs by { HeldKnown(s, id, version, fence); }
    BackoffKept(World(t, at), steps, w', id, Max(next, at));
  }

  lemma HeldKnown(s: Store, id: string, version: int, fence: int)
    requires Holds(s, id, version, fence)
    ensures id in s.jobs
  {
  }
}
