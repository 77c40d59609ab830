/**
 Job store and delivery queue together. Schedulers and rebuilders publish claims they read at some
 earlier time, workers act on deliveries, and all of it interleaves freely.
 */
module Deliveries {
  import opened Base
  import opened JobModel
  import opened JobStore
  import opened JobSteps
  import opened JobRuns
  import opened Envelopes
  import Q = DeliveryQueue

  type Jobs = map<string, Job>

  function Dispatched(jobs: Jobs): set<Job> { set id | id in jobs && jobs[id].status == Dispatching :: jobs[id] }

  // ---- What later job values say about an earlier claim ----

  /** A later value of the same job: the same claim, or a higher version that dispatches only under a higher fence. */
  predicate JobGrows(a: Job, b: Job)
  {
    && b.id == a.id && b.operationId == a.operationId
    && (|| (b.statusVersion == a.statusVersion && b.status == a.status && b.fenceToken == a.fenceToken &&
         b.leaseToken == a.leaseToken)
        || (b.statusVersion > a.statusVersion && b.fenceToken >= a.fenceToken &&
             (b.status == Dispatching ==> b.fenceToken > a.fenceToken)))
  }

  ghost predicate Grows(jobs: Jobs, later: Jobs)
  {
    forall id :: id in jobs ==> id in later && JobGrows(jobs[id], later[id])
  }

  predicate Claimed(job: Job) { job.status == Dispatching && ValidEnvelope(EnvelopeOf(job)) }

  ghost predicate WellFormed(jobs: Jobs)
  {
    forall id :: id in jobs ==> jobs[id].id == id && (jobs[id].status == Dispatching ==> Claimed(jobs[id]))
  }

  /** The claim is the stored one or an older one. */
  ghost predicate Recalled(job: Job, jobs: Jobs)
  {
    && Claimed(job) && job.id in jobs
    && var now := jobs[job.id];
       && job.operationId == now.operationId && job.fenceToken <= now.fenceToken
       && (|| (job.statusVersion == now.statusVersion && EnvelopeOf(job) == EnvelopeOf(now) &&
            now.status == Dispatching)
           || (job.statusVersion < now.statusVersion &&
                (now.status == Dispatching ==> job.fenceToken < now.fenceToken)))
  }

  /** Every claim ever read is recalled, and two claims of one job at the same version or fence are one claim. */
  ghost predicate ClaimsKnown(jobs: Jobs, claims: set<Job>)
  {
    && (forall j :: j in claims ==> Recalled(j, jobs))
    && (forall a, b | a in claims && b in claims && a.id == b.id ::
          a.statusVersion == b.statusVersion || a.fenceToken == b.fenceToken ==> EnvelopeOf(a) == EnvelopeOf(b))
  }

  lemma GrowsRecalls(jobs: Jobs, later: Jobs, job: Job)
    requires Grows(jobs, later) && Recalled(job, jobs)
    ensures Recalled(job, later)
  {
    hide ValidEnvelope;
    assert JobGrows(jobs[job.id], later[job.id]);
  }

  lemma StoredRecalled(jobs: Jobs, job: Job)
    requires WellFormed(jobs) && job in Dispatched(jobs)
    ensures job.id in jobs && jobs[job.id] == job && Recalled(job, jobs)
  {
    hide ValidEnvelope;
  }

  lemma OneClaim(jobs: Jobs, a: Job, b: Job)
    requires Recalled(a, jobs) && b.id in jobs && jobs[b.id] == b && b.status == Dispatching && a.id == b.id
    requires a.statusVersion == b.statusVersion || a.fenceToken == b.fenceToken
    ensures EnvelopeOf(a) == EnvelopeOf(b)
  {
    hide ValidEnvelope;
  }

  /** Claims stay known when the jobs grow and the newly dispatched ones are read. */
  lemma GrowsKnown(jobs: Jobs, later: Jobs, claims: set<Job>)
    requires ClaimsKnown(jobs, claims) && Grows(jobs, later) && WellFormed(later)
    ensures ClaimsKnown(later, claims + Dispatched(later))
  {
    hide Grows, Recalled, WellFormed, Dispatched;
    var all := claims + Dispatched(later);
    forall j | j in all
      ensures Recalled(j, later)
    {
      if j in claims { GrowsRecalls(jobs, later, j); } else { StoredRecalled(later, j); }
    }
    forall a, b | a in all && b in all && a.id == b.id &&
        (a.statusVersion == b.statusVersion || a.fenceToken == b.fenceToken)
      ensures EnvelopeOf(a) == EnvelopeOf(b)
    {
      if b !in claims {
        StoredDispatched(later, b);
        OneClaim(later, a, b);
      } else if a !in claims {
        StoredDispatched(later, a);
        OneClaim(later, b, a);
      }
    }
  }

  lemma StoredDispatched(jobs: Jobs, job: Job)
    requires WellFormed(jobs) && job in Dispatched(jobs)
    ensures job.id in jobs && jobs[job.id] == job && job.status == Dispatching
  {
    hide ValidEnvelope;
  }

  // ---- Store steps make the jobs grow ----

  lemma SoundWellFormed(s: Store)
    requires Consistent(s) && Leases(s)
    ensures WellFormed(s.jobs)
  {
    hide Consistent;
    forall id | id in s.jobs
      ensures s.jobs[id].id == id && (s.jobs[id].status == Dispatching ==> Claimed(s.jobs[id]))
    {
      HistoryOf(s, id);
      assert LeaseShape(s.jobs[id]);
    }
  }

  predicate NeverDispatches(r: Result<Option<Change>, Error>)
  {
    r.Success? && r.value.Some? ==> r.value.value.job.status != Dispatching
  }

  lemma MoveNeverDispatches(s: Store, id: string, version: int, fence: int, to: Status, reason: string, at: Time)
    requires to != Dispatching
    ensures NeverDispatches(Transition(s, id, version, fence, to, reason, at))
  {
    hide OutboxInsertable, TransitionAllowed;
  }

  lemma RetryNeverDispatches(s: Store, id: string, version: int, fence: int, reason: string, next: Time, at: Time)
    ensures NeverDispatches(Requeue(s, id, version, fence, reason, next, at))
  {
    hide OutboxInsertable, TransitionAllowed;
  }

  lemma AbandonNeverDispatches(s: Store, id: string, allowed: bool, reason: string, at: Time)
    ensures NeverDispatches(Cancel(s, id, allowed, reason, at))
  {
    hide OutboxInsertable, TransitionAllowed;
  }

  /** A change that was recorded on a job left it at a new version. */
  lemma RecordedGrows(s: Store, r: Result<Option<Change>, Error>, at: Time)
    requires NeverDispatches(r)
    requires r.Success? && r.value.Some? ==> GoodChange(s, r.value.value, 0)
    ensures Grows(s.jobs, RecordedIf(s, r, at).jobs)
  {
  }

  lemma ClaimGrows(jobs: Jobs, ids: set<string>, now: Time, lease: Lease)
    ensures Grows(jobs, AfterClaims(jobs, ids, now, lease))
  {
  }

  lemma StepGrows(s: Store, step: Step)
    requires Consistent(s) && Enabled(s, step) && ClaimsOnly(step)
    ensures Grows(s.jobs, Apply(s, step).jobs)
  {
    hide Consistent, Transition, Requeue, Cancel, RecordedIf, ClaimAll, NeverDispatches, GoodChange, AfterClaims,
         Claimable;
    match step
    case Create(operation, job, at) =>
    case Claim(picks, lease, at) =>
      ClaimBatch(s, picks, at, lease, []);
      ClaimGrows(s.jobs, Ids(picks), at, lease);
    case ExtendLease(id, version, fence, token, until, at) =>
    case Move(id, version, fence, to, reason, at) =>
      MoveNeverDispatches(s, id, version, fence, to, reason, at);
      MoveGood(s, id, version, fence, to, reason, at, 0);
      RecordedGrows(s, Transition(s, id, version, fence, to, reason, at), at);
    case Retry(id, version, fence, reason, next, at) =>
      RetryNeverDispatches(s, id, version, fence, reason, next, at);
      RetryGood(s, id, version, fence, reason, next, at, 0);
      RecordedGrows(s, Requeue(s, id, version, fence, reason, next, at), at);
    case Abandon(id, allowed, reason, at) =>
      AbandonNeverDispatches(s, id, allowed, reason, at);
      AbandonGood(s, id, allowed, reason, at, 0);
      RecordedGrows(s, Cancel(s, id, allowed, reason, at), at);
  }

  // ---- Publishing claims ----

  function PublishClaim(q: Q.Queue, job: Job, now: Time): Result<Q.Queue, Q.Error>
  {
    if NewEnvelope(job).None? then Failure(Q.InvalidEnvelope)
    else Q.Publish(q, EnvelopeOf(job), EnvelopeOf(job).deliveryId, now, now)
  }

  ghost predicate FromClaim(e: Envelope, claims: set<Job>)
  {
    exists j :: j in claims && e == EnvelopeOf(j)
  }

  /** Every entry carries the envelope of a claim under that envelope's own key. */
  ghost predicate Sourced(q: Q.Queue, claims: set<Job>)
  {
    forall id :: id in q.entries ==> q.entries[id].dedupeKey == id && FromClaim(q.entries[id].envelope, claims)
  }

  ghost predicate Linked(jobs: Jobs, q: Q.Queue, claims: set<Job>)
  {
    Q.Valid(q) && ClaimsKnown(jobs, claims) && Sourced(q, claims)
  }

  /**
   Publishing any claim that was ever read succeeds. If the claim already has an entry, in whatever
   status, the queue does not change: nothing is duplicated and nothing finished comes back.
   */
  lemma PublishSucceeds(jobs: Jobs, q: Q.Queue, claims: set<Job>, job: Job, now: Time)
    requires Linked(jobs, q, claims) && job in claims
    ensures var r := PublishClaim(q, job, now);
            && r.Success?
            && EnvelopeOf(job).deliveryId in r.value.entries &&
                 r.value.entries[EnvelopeOf(job).deliveryId].envelope == EnvelopeOf(job)
            && (EnvelopeOf(job).deliveryId in q.entries ==> r.value == q)
  {
    hide Q.Valid, Q.Publish;
    assert Recalled(job, jobs);
    var e := EnvelopeOf(job);
    Q.PublishOutcome(q, e, e.deliveryId, now, now);
    forall id | id in q.entries && (q.entries[id].dedupeKey == e.deliveryId || id == e.deliveryId)
      ensures q.entries[id].envelope == e && q.entries[id].dedupeKey == e.deliveryId
    {
      EntryIsClaim(jobs, q, claims, job, id);
    }
  }

  lemma EntryIsClaim(jobs: Jobs, q: Q.Queue, claims: set<Job>, job: Job, id: DeliveryId)
    requires Linked(jobs, q, claims) && job in claims && id in q.entries && id == EnvelopeOf(job).deliveryId
    ensures q.entries[id].envelope == EnvelopeOf(job)
  {
    hide Q.DedupeIndexed, Q.Sequenced, Q.Tokened;
    assert FromClaim(q.entries[id].envelope, claims);
    var j :| j in claims && q.entries[id].envelope == EnvelopeOf(j);
    assert Recalled(job, jobs) && Recalled(j, jobs);
  }

  /** Each claim has at most one queue entry, whether claims are told apart by version or by fence. */
  lemma OneEntryPerClaim(jobs: Jobs, q: Q.Queue, claims: set<Job>, a: DeliveryId, b: DeliveryId)
    requires Linked(jobs, q, claims) && a in q.entries && b in q.entries
    requires var e, f := q.entries[a].envelope, q.entries[b].envelope;
             e.jobId == f.jobId && (e.statusVersion == f.statusVersion || e.fenceToken == f.fenceToken)
    ensures a == b
  {
    hide Q.DedupeIndexed, Q.Sequenced, Q.Tokened, Recalled, ValidEnvelope;
    assert FromClaim(q.entries[a].envelope, claims) && FromClaim(q.entries[b].envelope, claims);
    var i :| i in claims && q.entries[a].envelope == EnvelopeOf(i);
    var j :| j in claims && q.entries[b].envelope == EnvelopeOf(j);
  }

  // ---- Interleaved runs ----

  /** Store, queue, and every claim any scheduler or rebuilder may still hold. */
  datatype Plant = Plant(store: Store, queue: Q.Queue, claims: set<Job>)

  datatype PlantStep = OnStore(step: Step) | Send(job: Job, at: Time) | OnQueue(act: Q.Step)

  function At(p: PlantStep): Time
  {
    match p
    case OnStore(step) => step.at
    case Send(_, at) => at
    case OnQueue(act) => act.at
  }

  /** Claims are sent late, twice or never; consumers receive and present any handle. */
  ghost predicate PlantEnabled(w: Plant, p: PlantStep)
  {
    match p
    case OnStore(step) => Enabled(w.store, step) && ClaimsOnly(step)
    case Send(job, _) => job in w.claims
    case OnQueue(act) => !act.PublishStep? && Q.Enabled(w.queue, act)
  }

  ghost function PlantApply(w: Plant, p: PlantStep): Plant
  {
    match p
    case OnStore(step) => var t := Apply(w.store, step); Plant(t, w.queue, w.claims + Dispatched(t.jobs))
    case Send(job, at) => w.(queue := Q.Kept(w.queue, PublishClaim(w.queue, job, at)))
    case OnQueue(act) => w.(queue := Q.Apply(w.queue, act))
  }

  ghost predicate PlantRun(w: Plant, clock: Time, steps: seq<PlantStep>, w': Plant, clock': Time)
    decreases |steps|
  {
    if steps == [] then w' == w && clock' >= clock
    else
      && PlantEnabled(w, steps[0]) && At(steps[0]) >= clock
      && PlantRun(PlantApply(w, steps[0]), At(steps[0]), steps[1..], w', clock')
  }

  ghost predicate PlantInvariant(w: Plant)
  {
    Consistent(w.store) && Leases(w.store) && Linked(w.store.jobs, w.queue, w.claims)
  }

  lemma SendLinked(jobs: Jobs, q: Q.Queue, claims: set<Job>, job: Job, now: Time)
    requires Linked(jobs, q, claims) && job in claims
    ensures Linked(jobs, Q.Kept(q, PublishClaim(q, job, now)), claims)
  {
    hide Q.Valid, ClaimsKnown, Q.Publish;
    var e := EnvelopeOf(job);
    PublishSucceeds(jobs, q, claims, job, now);
    Q.PublishValid(q, e, e.deliveryId, now, now);
    SendEntries(q, job, now);
  }

  lemma SendEntries(q: Q.Queue, job: Job, now: Time)
    requires PublishClaim(q, job, now).Success?
    ensures var r, e := PublishClaim(q, job, now).value, EnvelopeOf(job);
            forall id :: id in r.entries ==>
              (id in q.entries && r.entries[id] == q.entries[id]) ||
                  (r.entries[id].envelope == e && r.entries[id].dedupeKey == id == e.deliveryId)
  {
    hide DeliveryIdOf;
  }

  lemma ActLinked(jobs: Jobs, q: Q.Queue, claims: set<Job>, act: Q.Step)
    requires Linked(jobs, q, claims) && !act.PublishStep? && Q.Enabled(q, act)
    ensures Linked(jobs, Q.Apply(q, act), claims)
  {
    hide Q.Valid, ClaimsKnown, Q.Apply, Q.Enabled;
    Q.StepValid(q, act);
    var r := Q.Apply(q, act);
    ActKeys(q, act);
    forall id | id in r.entries
      ensures r.entries[id].dedupeKey == id && FromClaim(r.entries[id].envelope, claims)
    {
      Q.StepProgresses(q, act, id);
    }
  }

  lemma ActKeys(q: Q.Queue, act: Q.Step)
    requires !act.PublishStep? && Q.Enabled(q, act)
    ensures Q.Apply(q, act).entries.Keys == q.entries.Keys
  {
    hide Q.Deliver, Q.Picked;
    if act.ReceiveStep? {
      Q.DeliverFacts(Q.Reclaim(q, act.at), act.picks, act.consumer, act.until, act.at);
    }
  }

  lemma MoreSourced(q: Q.Queue, claims: set<Job>, more: set<Job>)
    requires Sourced(q, claims) && claims <= more
    ensures Sourced(q, more)
  {
    forall id | id in q.entries
      ensures FromClaim(q.entries[id].envelope, more)
    {
      assert FromClaim(q.entries[id].envelope, claims);
      var j :| j in claims && q.entries[id].envelope == EnvelopeOf(j);
      assert j in more;
    }
  }

  lemma PlantStepKeeps(w: Plant, p: PlantStep)
    requires PlantInvariant(w) && PlantEnabled(w, p)
    ensures PlantInvariant(PlantApply(w, p))
  {
    hide Consistent, Leases, Apply, Enabled, ClaimsOnly, Grows, ClaimsKnown, Sourced, Q.Valid, Q.Apply, Q.Enabled,
         PublishClaim, WellFormed, Dispatched, Q.Kept;
    match p
    case OnStore(step) =>
      var t := Apply(w.store, step);
      StepConsistent(w.store, step);
      StepLeases(w.store, step);
      StepGrows(w.store, step);
      SoundWellFormed(t);
      GrowsKnown(w.store.jobs, t.jobs, w.claims);
      MoreSourced(w.queue, w.claims, w.claims + Dispatched(t.jobs));
    case Send(job, at) => SendLinked(w.store.jobs, w.queue, w.claims, job, at);
    case OnQueue(act) => ActLinked(w.store.jobs, w.queue, w.claims, act);
  }

  /** Every interleaving keeps store, queue and held claims linked; so no publication in it ever fails. */
  lemma {:induction false} PlantReachable(w: Plant, clock: Time, steps: seq<PlantStep>, w': Plant, clock': Time)
    requires PlantInvariant(w) && PlantRun(w, clock, steps, w', clock')
    ensures PlantInvariant(w') && clock <= clock'
    decreases |steps|
  {
    hide PlantInvariant, PlantApply, PlantEnabled;
    if steps != [] {
      PlantStepKeeps(w, steps[0]);
      PlantReachable(PlantApply(w, steps[0]), At(steps[0]), steps[1..], w', clock');
    }
  }

  lemma EmptyPlant()
    ensures PlantInvariant(Plant(EMPTY, Q.EMPTY, {}))
  {
    EmptyConsistent();
    Q.EmptyValid();
  }

  /** From an empty system, any interleaving: sending any held claim neither fails nor conflicts. */
  lemma NoDedupeConflict(steps: seq<PlantStep>, w: Plant, clock: Time, job: Job, now: Time)
    requires PlantRun(Plant(EMPTY, Q.EMPTY, {}), 0, steps, w, clock) && job in w.claims
    ensures PublishClaim(w.queue, job, now).Success?
    ensures EnvelopeOf(job).deliveryId in w.queue.entries ==> PublishClaim(w.queue, job, now).value == w.queue
  {
    hide PlantRun, PublishClaim, Linked, Consistent, Leases;
    EmptyPlant();
    PlantReachable(Plant(EMPTY, Q.EMPTY, {}), 0, steps, w, clock);
    PublishSucceeds(w.store.jobs, w.queue, w.claims, job, now);
  }

  lemma PlantStepProgresses(w: Plant, p: PlantStep, id: DeliveryId)
    requires PlantInvariant(w) && PlantEnabled(w, p) && id in w.queue.entries
    ensures id in PlantApply(w, p).queue.entries
    ensures Q.Progresses(w.queue.entries[id], PlantApply(w, p).queue.entries[id])
  {
    hide Consistent, Leases, Apply, Enabled, ClaimsKnown, Sourced, Q.Valid, Q.Apply, Q.Enabled, Q.Progresses, Q.Publish,
         Dispatched;
    match p
    case OnStore(step) => ProgressesReflexive(w.queue.entries[id]);
    case Send(job, at) =>
      ProgressesReflexive(w.queue.entries[id]);
      SendKeeps(w.queue, job, at, id);
    case OnQueue(act) => Q.StepProgresses(w.queue, act, id);
  }

  lemma ProgressesReflexive(e: Q.Entry)
    ensures Q.Progresses(e, e)
  {
  }

  lemma SendKeeps(q: Q.Queue, job: Job, now: Time, id: DeliveryId)
    requires id in q.entries
    ensures var r := Q.Kept(q, PublishClaim(q, job, now)); id in r.entries && r.entries[id] == q.entries[id]
  {
    hide DeliveryIdOf;
  }

  lemma ProgressesTransitive(a: Q.Entry, b: Q.Entry, c: Q.Entry)
    requires Q.Progresses(a, b) && Q.Progresses(b, c)
    ensures Q.Progresses(a, c)
  {
  }

  /** Across any interleaving an entry keeps its envelope, and an acked or dead one never changes again. */
  lemma {:induction false} PlantProgresses(w: Plant, clock: Time, steps: seq<PlantStep>, w': Plant, clock': Time,
      id: DeliveryId)
    requires PlantInvariant(w) && PlantRun(w, clock, steps, w', clock') && id in w.queue.entries
    ensures id in w'.queue.entries && Q.Progresses(w.queue.entries[id], w'.queue.entries[id])
    decreases |steps|
  {
    hide PlantInvariant, PlantApply, PlantEnabled, Q.Progresses;
    ProgressesReflexive(w.queue.entries[id]);
    if steps != [] {
      var m := PlantApply(w, steps[0]);
      PlantStepKeeps(w, steps[0]);
      PlantStepProgresses(w, steps[0], id);
      PlantProgresses(m, At(steps[0]), steps[1..], w', clock', id);
      ProgressesTransitive(w.queue.entries[id], m.queue.entries[id], w'.queue.entries[id]);
    }
  }

  // ---- Stale deliveries ----

  /** A queued envelope is never ahead of its job, so its rejection is final. */
  lemma QueuedNotAhead(w: Plant, id: DeliveryId)
    requires PlantInvariant(w) && id in w.queue.entries
    ensures var e := w.queue.entries[id].envelope;
            e.jobId in w.store.jobs && e.statusVersion <= w.store.jobs[e.jobId].statusVersion
  {
    hide Consistent, Leases, Q.Valid;
    assert FromClaim(w.queue.entries[id].envelope, w.claims);
    var j :| j in w.claims && w.queue.entries[id].envelope == EnvelopeOf(j);
    assert Recalled(j, w.store.jobs);
  }

  lemma PlantStepRejects(w: Plant, p: PlantStep, e: Envelope, clock: Time)
    requires PlantInvariant(w) && PlantEnabled(w, p) && clock <= At(p) && Rejected(w.store, e, clock)
    ensures Rejected(PlantApply(w, p).store, e, At(p))
  {
    hide Consistent, Leases, Apply, Enabled, Linked, Advances, Q.Apply, PublishClaim, Matches;
    var job := w.store.jobs[e.jobId];
    AdvancesReflexive(job, clock);
    if p.OnStore? {
      StepAdvances(w.store, p.step, clock, e.jobId);
      AdvancesVersion(job, Apply(w.store, p.step).jobs[e.jobId], clock);
      AdvancesRejects(job, Apply(w.store, p.step).jobs[e.jobId], e, clock, At(p));
    } else {
      AdvancesRejects(job, job, e, clock, At(p));
    }
  }

  lemma AdvancesVersion(a: Job, b: Job, clock: Time)
    requires Advances(a, b, clock)
    ensures a.statusVersion <= b.statusVersion
  {
  }

  /** Once the worker's check rejects a queued envelope, no interleaving makes it acceptable again. */
  lemma {:induction false} StaleForever(w: Plant, clock: Time, steps: seq<PlantStep>, w': Plant, clock': Time,
      e: Envelope)
    requires PlantInvariant(w) && PlantRun(w, clock, steps, w', clock') && Rejected(w.store, e, clock)
    ensures Rejected(w'.store, e, clock')
    decreases |steps|
  {
    hide PlantInvariant, PlantApply, PlantEnabled, Matches;
    if steps != [] {
      PlantStepKeeps(w, steps[0]);
      PlantStepRejects(w, steps[0], e, clock);
      StaleForever(PlantApply(w, steps[0]), At(steps[0]), steps[1..], w', clock', e);
    } else if e.jobId in w.store.jobs {
      AdvancesReflexive(w.store.jobs[e.jobId], clock);
      AdvancesRejects(w.store.jobs[e.jobId], w.store.jobs[e.jobId], e, clock, clock');
    }
  }
}
