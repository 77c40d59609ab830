/** Scheduler and rebuild passes: claim through the service, publish to the delivery queue, count. */
module DeliveryWorker {
  import opened Base
  import opened Sorting
  import opened JobModel
  import opened FairQueue
  import opened JobStore
  import opened JobSteps
  import opened JobRuns
  import opened ReadyIndex
  import opened Agreement
  import opened Claiming
  import opened Envelopes
  import opened Deliveries
  import Q = DeliveryQueue
  import S = Service

  datatype SchedulerReport = SchedulerReport(claimed: nat, published: nat, errors: nat)

  datatype RebuildReport = RebuildReport(
    scanned: nat, reindexed: nat, republished: nat, claimed: nat, published: nat, errors: nat)

  /** What a rebuild pass reports as its error: failed registrations joined with the scheduler's failure. */
  datatype RebuildFailure = RebuildFailure(registrations: nat, schedule: Option<S.Failure>)

  /** Jobs under a live claim, whose envelopes a rebuild sends again. */
  predicate Rebuildable(job: Job, now: Time) { LiveClaim(job, now) && job.leaseToken != "" }

  /** Jobs a rebuild registers in the ready index. */
  predicate Reindexable(job: Job)
  {
    job.status == Queued || (job.status == Dispatching && job.leaseUntil.Some?)
  }

  predicate ByUpdate(a: Job, b: Job)
  {
    if a.updatedAt != b.updatedAt then a.updatedAt < b.updatedAt else StringLess(a.id, b.id)
  }

  predicate ByReadyTime(a: Job, b: Job)
  {
    if ReadyAt(a) != ReadyAt(b) then ReadyAt(a) < ReadyAt(b) else StringLess(a.id, b.id)
  }

  lemma IdsCompare(a: Job, b: Job, c: Job)
    ensures a.id == b.id || StringLess(a.id, b.id) || StringLess(b.id, a.id)
    ensures !(StringLess(a.id, b.id) && StringLess(b.id, a.id))
    ensures StringLess(a.id, b.id) && StringLess(b.id, c.id) ==> StringLess(a.id, c.id)
  {
    StringLessTotal(a.id, b.id);
    StringLessAsymmetric(a.id, b.id);
    if StringLess(a.id, b.id) && StringLess(b.id, c.id) {
      StringLessTransitive(a.id, b.id, c.id);
    }
  }

  lemma Orders(pool: set<Job>)
    requires DistinctIds(pool)
    ensures StrictOrder(ByUpdate, pool) && StrictOrder(ByReadyTime, pool)
  {
    hide ReadyAt;
    forall a, b, c | a in pool && b in pool && c in pool
      ensures a.id == b.id || StringLess(a.id, b.id) || StringLess(b.id, a.id)
      ensures !(StringLess(a.id, b.id) && StringLess(b.id, a.id))
      ensures StringLess(a.id, b.id) && StringLess(b.id, c.id) ==> StringLess(a.id, c.id)
    {
      IdsCompare(a, b, c);
    }
    OrderedPairs(pool);
  }

  lemma OrderedPairs(pool: set<Job>)
    requires DistinctIds(pool)
    requires forall a, b, c :: a in pool && b in pool && c in pool ==>
               && (a.id == b.id || StringLess(a.id, b.id) || StringLess(b.id, a.id))
               && !(StringLess(a.id, b.id) && StringLess(b.id, a.id))
               && (StringLess(a.id, b.id) && StringLess(b.id, c.id) ==> StringLess(a.id, c.id))
    ensures StrictOrder(ByUpdate, pool) && StrictOrder(ByReadyTime, pool)
  {
    hide ReadyAt, StringLess;
  }

  /** The jobs dispatched under a lease that is not over, with its token. */
  ghost function Active(jobs: Jobs, now: Time): set<Job>
  {
    set j | j in jobs.Values && j.status == Dispatching && j.leaseToken != "" && j.leaseUntil.Some? &&
        now < j.leaseUntil.value
  }

  /** The queued jobs and those dispatched under any lease. */
  ghost function Listed(jobs: Jobs): set<Job>
  {
    set j | j in jobs.Values && (j.status == Queued || (j.status == Dispatching && j.leaseUntil != None))
  }

  predicate UpdatedFirst(a: Job, b: Job)
  {
    a.updatedAt < b.updatedAt || (a.updatedAt == b.updatedAt && StringLess(a.id, b.id))
  }

  /** Claimable earlier: queued jobs when they become eligible, dispatched ones when their lease ends. */
  predicate DueFirst(a: Job, b: Job)
  {
    var x := if a.status == Dispatching && a.leaseUntil.Some? then a.leaseUntil.value else a.nextEligibleAt;
    var y := if b.status == Dispatching && b.leaseUntil.Some? then b.leaseUntil.value else b.nextEligibleAt;
    x < y || (x == y && StringLess(a.id, b.id))
  }

  /** `limit` jobs of the pool, or all of it, and none left out that was updated before one of them. */
  ghost predicate LongestWaiting(jobs: seq<Job>, pool: set<Job>, limit: nat)
  {
    && |jobs| == Min(limit, |pool|) && Members(jobs) <= pool
    && forall a, b :: a in jobs && b in pool && b !in jobs ==> UpdatedFirst(a, b)
  }

  /** `limit` jobs of the pool, or all of it, and none left out that is claimable before one of them. */
  ghost predicate SoonestDue(jobs: seq<Job>, pool: set<Job>, limit: nat)
  {
    && |jobs| == Min(limit, |pool|) && Members(jobs) <= pool
    && forall a, b :: a in jobs && b in pool && b !in jobs ==> DueFirst(a, b)
  }

  /** Every entry is still there, unchanged. */
  ghost predicate QueueKept(was: map<DeliveryId, Q.Entry>, entries: map<DeliveryId, Q.Entry>)
  {
    forall id :: id in was ==> id in entries && entries[id] == was[id]
  }

  /** The queue holds an entry under the claim's delivery identifier that names exactly this claim. */
  predicate Sent(job: Job, entries: map<DeliveryId, Q.Entry>)
  {
    && EnvelopeOf(job).deliveryId in entries
    && var e := entries[EnvelopeOf(job).deliveryId].envelope;
       && e.jobId == job.id && e.operationId == job.operationId && e.statusVersion == job.statusVersion
       && e.fenceToken == job.fenceToken && e.leaseToken == job.leaseToken
  }

  /** Every live claim has its entry. */
  ghost predicate AllSent(jobs: Jobs, now: Time, entries: map<DeliveryId, Q.Entry>)
  {
    forall j :: j in Active(jobs, now) ==> Sent(j, entries)
  }

  /** Every claim that was not there before has its entry. */
  ghost predicate NewClaimsSent(was: Jobs, jobs: Jobs, entries: map<DeliveryId, Q.Entry>)
  {
    forall j :: j in Dispatched(jobs) && j !in Dispatched(was) ==> Sent(j, entries)
  }

  lemma QueueUnchanged(entries: map<DeliveryId, Q.Entry>)
    ensures QueueKept(entries, entries)
  {
  }

  lemma StillSent(a: map<DeliveryId, Q.Entry>, b: map<DeliveryId, Q.Entry>, c: map<DeliveryId, Q.Entry>, jobs: Jobs,
      now: Time)
    requires QueueKept(a, b) && QueueKept(b, c)
    ensures QueueKept(a, c) && (AllSent(jobs, now, b) ==> AllSent(jobs, now, c))
  {
    hide Active, EnvelopeOf;
  }

  ghost function KeptRows(pool: set<Job>, keep: Job -> bool): set<Job> { set j | j in pool && keep(j) }

  lemma NothingKept(keep: Job -> bool)
    ensures Members<Job>([]) == {} && KeptRows({}, keep) == {}
  {
  }

  lemma KeptPart(pool: set<Job>, keep: Job -> bool)
    ensures KeptRows(pool, keep) <= pool
  {
  }

  lemma KeptOneMore(pool: set<Job>, keep: Job -> bool, job: Job)
    requires job !in pool
    ensures KeptRows(pool + {job}, keep) == KeptRows(pool, keep) + (if keep(job) then {job} else {})
    ensures job !in KeptRows(pool, keep)
  {
  }

  /** Keep the jobs that satisfy the condition, sort them and cut the list. */
  method FirstRows(all: seq<Job>, keep: Job -> bool, less: (Job, Job) -> bool, limit: nat) returns (rows: seq<Job>)
    requires DistinctSeq(all) && StrictOrder(less, Members(all))
    ensures Least(rows, KeptRows(Members(all), keep), less, limit)
  {
    hide StrictOrder, Least, KeptRows;
    var kept := [];
    NothingKept(keep);
    for i := 0 to |all|
      invariant Members(kept) == KeptRows(Members(all[..i]), keep)
      invariant NoDuplicates(kept)
    {
      assert all[..i + 1] == all[..i] + [all[i]];
      assert all[i] !in Members(all[..i]);
      assert Members(all[..i + 1]) == Members(all[..i]) + {all[i]};
      KeptOneMore(Members(all[..i]), keep, all[i]);
      if keep(all[i]) {
        assert Members(kept + [all[i]]) == Members(kept) + {all[i]};
        kept := kept + [all[i]];
      }
    }
    assert all[..|all|] == all;
    KeptPart(Members(all), keep);
    SubOrder(less, Members(all), Members(kept));
    var sorted := Sort(kept, less);
    PrefixLeast(sorted, less, Members(kept), limit);
    rows := sorted[..Min(limit, |sorted|)];
  }

  class Dispatcher {
    const service: S.JobService
    const queue: Q.MemoryDeliveryQueue
    /** Every claim the store ever held. */
    ghost var claims: set<Job>

    constructor (lease: nat)
      requires lease > 0
      ensures fresh(service) && fresh(queue) && fresh(service.repo) && fresh(service.index) && Valid(0, {})
    {
      service := new S.JobService();
      queue := new Q.MemoryDeliveryQueue(lease);
      claims := {};
      new;
    }

    /**
     Store, index and queue are each sound, the index misses only pending jobs, and every queued
     envelope is the envelope of a claim.
     */
    ghost predicate Valid(clock: Time, pending: set<string>)
      reads this, service.repo, service.index, queue
    {
      && service.Tracks(clock, pending)
      && Linked(service.repo.jobs, queue.Contents(), claims) && Dispatched(service.repo.jobs) <= claims
    }

    /** Publishing a claim never fails, and changes nothing when the claim already has an entry. */
    method PublishDelivery(job: Job, now: Time) returns (error: Option<Q.Error>)
      requires Linked(service.repo.jobs, queue.Contents(), claims) && job in claims
      modifies queue
      ensures error == None
      ensures Linked(service.repo.jobs, queue.Contents(), claims)
      ensures Holds(old(queue.Contents()), queue.Contents(), job, now)
    {
      hide Q.Publish, Q.Kept, Sourced, ClaimsKnown, Holds;
      PublishSucceeds(service.repo.jobs, queue.Contents(), claims, job, now);
      SendLinked(service.repo.jobs, queue.Contents(), claims, job, now);
      SendHolds(service.repo.jobs, queue.Contents(), claims, job, now);
      KeptSuccess(queue.Contents(), PublishClaim(queue.Contents(), job, now));
      var envelope := NewEnvelope(job);
      if envelope.None? {
        return Some(Q.InvalidEnvelope);
      }
      error := queue.PublishEnvelope(envelope.value, envelope.value.deliveryId, now, now);
    }

    /** Publish one claim after the other. */
    method PublishAll(jobs: seq<Job>, now: Time) returns (published: int, errors: int)
      requires Linked(service.repo.jobs, queue.Contents(), claims)
      requires forall i :: 0 <= i < |jobs| ==> jobs[i] in claims
      modifies queue
      ensures published == |jobs| && errors == 0
      ensures Linked(service.repo.jobs, queue.Contents(), claims)
      ensures forall i :: 0 <= i < |jobs| ==> Sent(jobs[i], queue.entries)
      ensures QueueKept(old(queue.entries), queue.entries)
    {
      hide Linked, EnvelopeOf;
      published, errors := 0, 0;
      for i := 0 to |jobs|
        invariant published == i && errors == 0
        invariant Linked(service.repo.jobs, queue.Contents(), claims)
        invariant forall k :: 0 <= k < i ==> Sent(jobs[k], queue.entries)
        invariant QueueKept(old(queue.entries), queue.entries)
      {
        var error := PublishDelivery(jobs[i], now);
        if error.Some? {
          errors := errors + 1;
          continue;
        }
        published := published + 1;
      }
    }

    /**
     One scheduler pass: it claims exactly min(limit, ready) jobs, publishes every one of them and
     counts no error; entries already queued stay as they are.
     */
    method RunScheduler(worker: string, duration: int, limit: int, now: Time, token: string, mode: S.IndexMode,
        ghost clock: Time, ghost pending: set<string>)
      returns (report: SchedulerReport, failure: Option<S.Failure>)
      requires Valid(clock, pending) && clock <= now && now != ZERO_TIME && token != ""
      modifies this, service.repo, service.index, queue
      ensures Valid(now, Unregistered(mode, pending, old(service.repo.jobs), service.repo.jobs))
      ensures claims == old(claims) + Dispatched(service.repo.jobs)
      ensures failure == if duration <= 0 then Some(S.InvalidLease) else None
      ensures duration <= 0 || limit <= 0 || worker == "" ==>
                report == SchedulerReport(0, 0, 0) && service.repo.jobs == old(service.repo.jobs)
      ensures duration > 0 && limit > 0 && worker != "" ==>
                var n := Min(limit, |ReadyIds(old(service.repo.jobs), now)|); report == SchedulerReport(n, n, 0)
      ensures NewClaimsSent(old(service.repo.jobs), service.repo.jobs, queue.entries)
      ensures QueueKept(old(queue.entries), queue.entries)
    {
      hide Sound, Agrees, Consistent, Linked, ReadyIds, AfterClaims, Grows, Dispatched, ClaimedJob, EnvelopeOf, Raised;
      ghost var s := service.repo.Contents();
      S.SoundConsistent(s, clock);
      var jobs, failed, hints := service.ClaimReady(worker, duration, limit, now, token, mode, clock, pending);
      ghost var t := service.repo.Contents();
      ghost var lease := Lease(Max(0, now + duration), worker, token);
      ReadClaims(s, t, queue.Contents(), claims, now, jobs, lease, limit);
      ClaimsRaised(s, t, jobs, now, lease, limit);
      S.AgreesMore(t.jobs, service.index.entries, if S.Writable(mode) then pending - Ids(jobs)
          else pending + Ids(jobs), Unregistered(mode, pending, s.jobs, t.jobs));
      claims := claims + Dispatched(t.jobs);
      if failed.Some? {
        return SchedulerReport(0, 0, 0), failed;
      }
      var published, errors := PublishAll(jobs, now);
      return SchedulerReport(|jobs|, published, errors), None;
    }

    /** The least rows of the jobs that satisfy the condition. */
    method ListRows(keep: Job -> bool, less: (Job, Job) -> bool, limit: nat) returns (rows: seq<Job>)
      requires Consistent(service.repo.Contents()) && StrictOrder(less, service.repo.jobs.Values)
      ensures Least(rows, KeptRows(service.repo.jobs.Values, keep), less, limit)
    {
      hide Consistent, StrictOrder, Least;
      KeyedJobs(service.repo.Contents());
      var all := service.repo.ListJobs();
      assert Members(all) == service.repo.jobs.Values;
      rows := FirstRows(all, keep, less, limit);
    }

    /** Register the listed jobs; when the index does not answer, every one of them counts as an error. */
    method Reindex(rows: seq<Job>, mode: S.IndexMode, ghost clock: Time,
        ghost pending: set<string>)
      returns (reindexed: int, errors: int)
      requires service.Tracks(clock, pending) && mode != S.Absent
      requires forall i :: 0 <= i < |rows| ==> rows[i] in service.repo.jobs.Values && Reindexable(rows[i])
      modifies service.index
      ensures service.Tracks(clock, if S.Writable(mode) then pending - Ids(rows) else pending)
      ensures reindexed == (if S.Writable(mode) then |rows| else 0) && errors == |rows| - reindexed
    {
      hide Sound, Agrees, ReadyIndex.Keyed, Reindexable;
      reindexed, errors := 0, 0;
      ghost var left := pending;
      S.NoIds();
      assert rows[..0] == [];
      assert pending - {} == pending;
      for i := 0 to |rows|
        invariant left == (if S.Writable(mode) then pending - Ids(rows[..i]) else pending)
        invariant service.Tracks(clock, left)
        invariant reindexed == (if S.Writable(mode) then i else 0) && errors == i - reindexed
      {
        IdsStep(rows, i);
        RowStored(service.repo.Contents(), clock, service.index.entries, left, rows[i]);
        RegisterAgrees(service.repo.Contents(), clock, service.index.entries, left, rows[i].id);
        var entry := NewEntry(rows[i]);
        if entry.None? {
          errors := errors + 1;
          continue;
        }
        if mode == S.Failing {
          errors := errors + 1;
          continue;
        }
        S.KeyedRegister(service.index.entries, entry.value);
        var outcome := service.index.Register(entry.value);
        if outcome == Conflict || outcome == Invalid {
          errors := errors + 1;
          continue;
        }
        left := left - {rows[i].id};
        reindexed := reindexed + 1;
      }
      assert rows[..|rows|] == rows;
    }

    /** The index part of a rebuild. It makes up for every lost registration when the list is not cut. */
    method RebuildIndex(limit: int, mode: S.IndexMode, ghost clock: Time,
        ghost pending: set<string>)
      returns (reindexed: int, errors: int, ghost rows: seq<Job>, ghost left: set<string>)
      requires service.Tracks(clock, pending) && limit > 0
      modifies service.index
      ensures service.Tracks(clock, left) && left <= pending
      ensures var n := Min(S.CandidateLimit(limit), |Listed(service.repo.jobs)|);
              && reindexed == (if S.Writable(mode) then n else 0)
              && errors == (if mode == S.Failing then n else 0)
      ensures mode != S.Absent ==> SoonestDue(rows, Listed(service.repo.jobs), S.CandidateLimit(limit))
      ensures S.Writable(mode) ==> left <= pending - Ids(rows)
      ensures S.Writable(mode) && |Listed(service.repo.jobs)| <= S.CandidateLimit(limit) ==> left == {}
    {
      hide Sound, Agrees, Consistent, ByReadyTime, Reindexable, StrictOrder, DistinctIds, ReadyIndex.Keyed, Listed;
      reindexed, errors, rows, left := 0, 0, [], pending;
      if mode == S.Absent {
        return;
      }
      ghost var s := service.repo.Contents();
      S.SoundConsistent(s, clock);
      StoredIdsDistinct(s);
      Orders(s.jobs.Values);
      ListedRows(s.jobs);
      var listed := ListRows(Reindexable, ByReadyTime, S.CandidateLimit(limit));
      rows := listed;
      RowsListed(s.jobs, rows, S.CandidateLimit(limit));
      RowsSoonest(s.jobs, rows, S.CandidateLimit(limit));
      reindexed, errors := Reindex(listed, mode, clock, pending);
      if S.Writable(mode) {
        left := pending - Ids(rows);
        if |Listed(s.jobs)| <= S.CandidateLimit(limit) {
          AllListed(s, clock, rows);
          S.AgreesMore(s.jobs, service.index.entries, left, {});
          left := {};
        }
      }
    }

    /** Send the envelopes of the listed live claims again. */
    method SendActive(limit: int, now: Time, ghost clock: Time)
      returns (scanned: int, sent: int, errors: int, ghost resent: seq<Job>)
      requires Sound(service.repo.Contents(), clock) && limit > 0
      requires Linked(service.repo.jobs, queue.Contents(), claims) && Dispatched(service.repo.jobs) <= claims
      modifies queue
      ensures Linked(service.repo.jobs, queue.Contents(), claims)
      ensures scanned == sent == Min(limit, |Active(service.repo.jobs, now)|) && errors == 0
      ensures LongestWaiting(resent, Active(service.repo.jobs, now), limit)
      ensures forall j :: j in resent ==> Sent(j, queue.entries)
      ensures limit >= |Active(service.repo.jobs, now)| ==> AllSent(service.repo.jobs, now, queue.entries)
      ensures QueueKept(old(queue.entries), queue.entries)
    {
      hide Sound, Consistent, Linked, Dispatched, ByUpdate, ByReadyTime, Rebuildable, EnvelopeOf, StrictOrder,
           DistinctIds;
      ghost var s := service.repo.Contents();
      S.SoundConsistent(s, clock);
      StoredIdsDistinct(s);
      Orders(s.jobs.Values);
      var live := (j: Job) => Rebuildable(j, now);
      ActiveRows(s.jobs, now, live);
      var jobs := ListRows(live, ByUpdate, limit);
      RowsActive(s.jobs, now, jobs, limit, claims);
      RowsWaiting(s.jobs, now, jobs, limit);
      resent := jobs;
      sent, errors := PublishAll(jobs, now);
      scanned := |jobs|;
    }

    /**
     One rebuild pass: sends every listed live claim again, registers the listed claimable jobs and
     claims with what is left of the limit. Only a failing index causes errors, no existing entry
     changes, and when the list is not cut the index ends in full agreement, whatever was lost before.
     */
    method Rebuild(worker: string, duration: int, limit: int, now: Time, token: string, mode: S.IndexMode,
        ghost clock: Time, ghost pending: set<string>)
      returns (report: RebuildReport, failure: Option<RebuildFailure>)
      requires Valid(clock, pending) && clock <= now && now != ZERO_TIME && token != ""
      modifies this, service.repo, service.index, queue
      ensures Valid(now, Unregistered(mode, pending, old(service.repo.jobs), service.repo.jobs))
      ensures S.Writable(mode) && limit > 0 && |Listed(old(service.repo.jobs))| <= S.CandidateLimit(limit) ==>
                Valid(now, {})
      ensures failure.Some? ==>
                failure.value.registrations == report.errors &&
                failure.value.schedule == (if limit > 0 && limit > report.scanned && duration <= 0
                    then Some(S.InvalidLease) else None)
      ensures failure != None <==> report.errors > 0 || (limit > 0 && limit > report.scanned && duration <= 0)
      ensures report.republished == report.scanned && report.published == report.scanned + report.claimed
      ensures limit <= 0 ==> report == RebuildReport(0, 0, 0, 0, 0, 0)
      ensures limit > 0 ==>
                var n := Min(S.CandidateLimit(limit), |Listed(old(service.repo.jobs))|);
                && report.scanned == Min(limit, |Active(old(service.repo.jobs), now)|)
                && report.reindexed == (if S.Writable(mode) then n else 0)
                && report.errors == (if mode == S.Failing then n else 0)
      ensures limit > 0 ==>
                report.claimed == if duration > 0 && worker != ""
                    then Min(limit - report.scanned, |ReadyIds(old(service.repo.jobs), now)|) else 0
      ensures limit > 0 && limit >= |Active(old(service.repo.jobs), now)| ==>
                AllSent(old(service.repo.jobs), now, queue.entries)
      ensures QueueKept(old(queue.entries), queue.entries)
    {
      hide Sound, Agrees, Consistent, Linked, ReadyIds, Dispatched, EnvelopeOf, ReadyIndex.Keyed, Raised, Listed,
           Active,
           QueueKept, AllSent, NewClaimsSent;
      ghost var s := service.repo.Contents();
      S.SoundConsistent(s, clock);
      S.LaterSound(s, clock, now);
      NothingRaised(s.jobs);
      QueueUnchanged(queue.entries);
      if limit <= 0 {
        S.AgreesMore(s.jobs, service.index.entries, pending, Unregistered(mode, pending, s.jobs, s.jobs));
        return RebuildReport(0, 0, 0, 0, 0, 0), None;
      }
      var scanned, sent, sendErrors, _ := SendActive(limit, now, now);
      ghost var resent := queue.entries;
      QueueUnchanged(resent);
      var reindexed, indexErrors, _, left := RebuildIndex(limit, mode, now, pending);
      report := RebuildReport(scanned, reindexed, sent, 0, sent, sendErrors + indexErrors);
      var schedule: Option<S.Failure> := None;
      if limit - scanned > 0 {
        var scheduled, failed := RunScheduler(worker, duration, limit - scanned, now, token, mode, now, left);
        report := report.(claimed := scheduled.claimed, published := sent + scheduled.published,
                          errors := report.errors + scheduled.errors);
        schedule := failed;
      } else {
        S.AgreesMore(s.jobs, service.index.entries, left, Unregistered(mode, left, s.jobs, s.jobs));
      }
      ghost var after := service.repo.jobs;
      StillSent(old(queue.entries), resent, queue.entries, s.jobs, now);
      S.AgreesMore(after, service.index.entries, Unregistered(mode, left, s.jobs, after),
                   Unregistered(mode, pending, s.jobs, after));
      failure := if report.errors == 0 && schedule == None then None
          else Some(RebuildFailure(report.errors, schedule));
    }
  }

  /** Jobs whose version rose between the two states. */
  ghost function Raised(was: Jobs, jobs: Jobs): set<string>
  {
    set id | id in jobs && (id !in was || jobs[id].statusVersion != was[id].statusVersion)
  }

  /** What is left to register after a call: nothing new when the index takes writes, else the raised jobs. */
  ghost function Unregistered(mode: S.IndexMode, pending: set<string>, was: Jobs, jobs: Jobs): set<string>
  {
    if S.Writable(mode) then pending else pending + Raised(was, jobs)
  }

  // ---- Facts the methods use ----

  lemma NothingRaised(jobs: Jobs)
    ensures Raised(jobs, jobs) == {}
  {
  }

  lemma ClaimsRaised(s: Store, t: Store, claimed: seq<Job>, now: Time, lease: Lease, limit: int)
    requires (claimed == [] && t.jobs == s.jobs) || (limit > 0 && ExactClaim(s, t, claimed, now, lease, limit))
    ensures Ids(claimed) <= Raised(s.jobs, t.jobs)
  {
    hide Consistent, ReadyIds;
    if claimed != [] {
      S.ExactStored(s, t, claimed, now, lease, limit);
    }
  }

  lemma IdsStep(rows: seq<Job>, i: nat)
    requires i < |rows|
    ensures Ids(rows[..i + 1]) == Ids(rows[..i]) + {rows[i].id}
  {
    assert rows[..i + 1] == rows[..i] + [rows[i]];
  }

  lemma ActiveRows(jobs: Jobs, now: Time, live: Job -> bool)
    requires forall j :: live(j) == Rebuildable(j, now)
    ensures KeptRows(jobs.Values, live) == Active(jobs, now)
  {
  }

  lemma RowsWaiting(jobs: Jobs, now: Time, rows: seq<Job>, limit: nat)
    requires Least(rows, Active(jobs, now), ByUpdate, limit)
    ensures LongestWaiting(rows, Active(jobs, now), limit)
  {
    hide StringLess, Active;
  }

  lemma RowsSoonest(jobs: Jobs, rows: seq<Job>, limit: nat)
    requires Least(rows, Listed(jobs), ByReadyTime, limit)
    ensures SoonestDue(rows, Listed(jobs), limit)
  {
    hide StringLess, Listed;
  }

  lemma ListedRows(jobs: Jobs)
    ensures KeptRows(jobs.Values, Reindexable) == Listed(jobs)
  {
  }

  /** An uncut list names every job the index should cover. */
  lemma AllListed(s: Store, clock: Time, rows: seq<Job>)
    requires Sound(s, clock) && Members(rows) == Listed(s.jobs)
    ensures forall id :: id in s.jobs && Indexed(s.jobs[id].status) ==> id in Ids(rows)
  {
    hide Consistent, Timed, Owned;
    forall id | id in s.jobs && Indexed(s.jobs[id].status)
      ensures id in Ids(rows)
    {
      HistoryOf(s, id);
      assert LeaseShape(s.jobs[id]);
      assert s.jobs[id] in Listed(s.jobs);
      assert s.jobs[id] in Members(rows);
    }
  }

  /** The claim has its entry, and what was there is still there unchanged. */
  ghost predicate Holds(q: Q.Queue, r: Q.Queue, job: Job, now: Time)
  {
    var id := EnvelopeOf(job).deliveryId;
    && Sent(job, r.entries)
    && (id in q.entries ==> r == q)
    && (id !in q.entries ==>
          r.entries[id].status == Q.Pending && r.entries[id].availableAt == now && r.entries[id].attempt == 0)
    && forall id :: id in q.entries ==> id in r.entries && r.entries[id] == q.entries[id]
  }

  lemma SendHolds(jobs: Jobs, q: Q.Queue, claims: set<Job>, job: Job, now: Time)
    requires Linked(jobs, q, claims) && job in claims
    ensures Holds(q, Q.Kept(q, PublishClaim(q, job, now)), job, now)
  {
    hide Linked, PublishClaim, EnvelopeOf, Sent;
    PublishSucceeds(jobs, q, claims, job, now);
    SendStores(jobs, q, claims, job, now);
    forall id | id in q.entries
      ensures id in Q.Kept(q, PublishClaim(q, job, now)).entries
      ensures Q.Kept(q, PublishClaim(q, job, now)).entries[id] == q.entries[id]
    {
      SendKeeps(q, job, now, id);
    }
  }

  lemma SendStores(jobs: Jobs, q: Q.Queue, claims: set<Job>, job: Job, now: Time)
    requires Linked(jobs, q, claims) && job in claims
    ensures var r := Q.Kept(q, PublishClaim(q, job, now));
            var id := EnvelopeOf(job).deliveryId;
            && Sent(job, r.entries)
            && (id !in q.entries ==>
                  r.entries[id].status == Q.Pending && r.entries[id].availableAt == now && r.entries[id].attempt == 0)
  {
    hide Q.Valid, Sourced;
    PublishSucceeds(jobs, q, claims, job, now);
    if NewEnvelope(job).Some? {
      Q.PublishOutcome(q, EnvelopeOf(job), EnvelopeOf(job).deliveryId, now, now);
    }
  }

  lemma KeptSuccess(q: Q.Queue, r: Result<Q.Queue, Q.Error>)
    ensures r.Success? ==> Q.Kept(q, r) == r.value
  {
  }

  lemma NothingGrows(jobs: Jobs)
    ensures Grows(jobs, jobs)
  {
  }

  /** Reading the dispatched jobs of the store keeps the link and includes every job just claimed. */
  lemma ReadClaims(s: Store, t: Store, q: Q.Queue, claims: set<Job>, now: Time, claimed: seq<Job>, lease: Lease,
      limit: int)
    requires Linked(s.jobs, q, claims) && Sound(t, now)
    requires (claimed == [] && t.jobs == s.jobs) || (limit > 0 && ExactClaim(s, t, claimed, now, lease, limit))
    ensures Linked(t.jobs, q, claims + Dispatched(t.jobs))
    ensures forall i :: 0 <= i < |claimed| ==> claimed[i] in Dispatched(t.jobs)
    ensures forall j :: j in Dispatched(t.jobs) && j !in Dispatched(s.jobs) ==> j in claimed
  {
    hide Consistent, Leases, Owned, Timed, ReadyIds, Sourced, ClaimsKnown, Grows, WellFormed, AfterClaims, Q.Valid,
         ClaimedJob;
    SoundWellFormed(t);
    NothingGrows(s.jobs);
    if limit > 0 && ExactClaim(s, t, claimed, now, lease, limit) {
      ClaimGrows(s.jobs, Ids(claimed), now, lease);
      S.ExactStored(s, t, claimed, now, lease, limit);
      forall i | 0 <= i < |claimed|
        ensures claimed[i] in Dispatched(t.jobs)
      {
        ClaimDispatches(s.jobs[claimed[i].id], now, lease);
        assert t.jobs[claimed[i].id] == claimed[i];
      }
      NewlyDispatched(s.jobs, claimed, now, lease);
    }
    GrowsKnown(s.jobs, t.jobs, claims);
    MoreSourced(q, claims, claims + Dispatched(t.jobs));
  }

  lemma NewlyDispatched(jobs: Jobs, claimed: seq<Job>, now: Time, lease: Lease)
    requires forall i :: 0 <= i < |claimed| ==>
              claimed[i].id in jobs && claimed[i] == ClaimedJob(jobs[claimed[i].id], now, lease)
    ensures forall j :: j in Dispatched(AfterClaims(jobs, Ids(claimed), now, lease)) && j !in Dispatched(jobs) ==>
              j in claimed
  {
    hide ClaimedJob;
    var after := AfterClaims(jobs, Ids(claimed), now, lease);
    forall j | j in Dispatched(after) && j !in Dispatched(jobs)
      ensures j in claimed
    {
      var id :| id in after && after[id] == j && j.status == Dispatching;
      assert id in Ids(claimed);
      var i :| 0 <= i < |claimed| && claimed[i].id == id;
    }
  }

  lemma ClaimDispatches(job: Job, now: Time, lease: Lease)
    ensures ClaimedJob(job, now, lease).status == Dispatching
  {
  }

  lemma RowsActive(jobs: Jobs, now: Time, rows: seq<Job>, limit: nat, claims: set<Job>)
    requires Least(rows, Active(jobs, now), ByUpdate, limit)
    requires StrictOrder(ByUpdate, jobs.Values) && Dispatched(jobs) <= claims
    ensures |rows| == Min(limit, |Active(jobs, now)|)
    ensures forall i :: 0 <= i < |rows| ==> rows[i] in claims
    ensures limit >= |Active(jobs, now)| ==> forall j :: j in Active(jobs, now) ==> j in rows
  {
    hide ByUpdate, StrictOrder;
    var pool := Active(jobs, now);
    forall i | 0 <= i < |rows|
      ensures rows[i] in claims
    {
      assert rows[i] in Members(rows);
      assert rows[i] in jobs.Values && rows[i].status == Dispatching;
      var id :| id in jobs && jobs[id] == rows[i];
    }
    SubOrder(ByUpdate, jobs.Values, pool);
    SortedDistinct(rows, ByUpdate, pool);
    if limit >= |pool| {
      SameCard(Members(rows), pool);
    }
  }

  lemma SameCard<T>(a: set<T>, b: set<T>)
    requires a <= b && |a| == |b|
    ensures a == b
  {
    assert b == a + (b - a);
  }

  lemma RowsListed(jobs: Jobs, rows: seq<Job>, limit: nat)
    requires Least(rows, Listed(jobs), ByReadyTime, limit) && StrictOrder(ByReadyTime, jobs.Values)
    ensures |rows| == Min(limit, |Listed(jobs)|)
    ensures forall i :: 0 <= i < |rows| ==> rows[i] in jobs.Values && Reindexable(rows[i])
    ensures |Listed(jobs)| <= limit ==> Members(rows) == Listed(jobs)
  {
    hide ByReadyTime, StrictOrder;
    SubOrder(ByReadyTime, jobs.Values, Listed(jobs));
    SortedDistinct(rows, ByReadyTime, Listed(jobs));
    if |Listed(jobs)| <= limit {
      SameCard(Members(rows), Listed(jobs));
    }
    forall i | 0 <= i < |rows|
      ensures rows[i] in Listed(jobs)
    {
      assert rows[i] in Members(rows);
    }
  }

  /** A stored claimable job always has an entry, and the agreeing index accepts it. */
  lemma RowStored(s: Store, clock: Time, m: Entries, pending: set<string>, row: Job)
    requires Sound(s, clock) && Agrees(s.jobs, m, pending) && row in s.jobs.Values && Reindexable(row)
    ensures row.id in s.jobs && s.jobs[row.id] == row
    ensures NewEntry(row).Some? && RegisteredState(m, row) == Registered(m, NewEntry(row).value)
    ensures RegisterVerdict(m, NewEntry(row).value) == Stored
  {
    hide Consistent, ValidEntry;
    S.ReplayStored(s, clock, row);
    SoundIndexable(s, clock, row.id);
    ValidOf(row);
    assert row.id in m ==> Fits(m[row.id], row);
  }
}
