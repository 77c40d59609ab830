/** The in-memory repository: four maps changed in place, each call under one lock. */
module Repository {
  import opened Base
  import opened Sorting
  import opened JobModel
  import opened FairQueue
  import opened JobStore
  import opened JobSteps
  import opened JobRuns
  import opened Admission
  import FairQuery
  import opened JobEffects
  import opened Promptness

  /** One version of a job, as an index entry or a delivery names it. */
  datatype Reference = Reference(jobId: string, statusVersion: int)

  /** The version the last usable reference asks for; zero when there is none. */
  function WantedVersion(references: seq<Reference>, id: string): int
  {
    if references == [] then 0
    else
      var last := references[|references| - 1];
      if last.jobId == id && last.jobId != "" && last.statusVersion > 0 then last.statusVersion
      else WantedVersion(references[..|references| - 1], id)
  }

  /** Ready jobs whose stored version is the referenced one. */
  ghost function ReferencedRows(jobs: set<Job>, references: seq<Reference>, now: Time): set<Job>
  {
    set j | j in jobs && WantedVersion(references, j.id) == j.statusVersion && ReadyForClaim(j, now)
  }

  predicate ClaimRefused(lease: Lease, now: Time, limit: int)
  {
    limit <= 0 || lease.worker == "" || lease.token == "" || lease.until <= now
  }

  /**
   What a claim call did: it took the fairest `limit` jobs of the pool and nothing else.
   */
  ghost predicate ClaimedFrom(s: Store, t: Store, pool: set<Job>, picks: seq<Job>, claimed: seq<Job>, now: Time,
      lease: Lease, limit: nat)
  {
    && DistinctIds(pool)
    && (forall stats :: StatsOf(stats, s.jobs.Values, Activities(s)) ==> picks == Rank(pool, now, stats, limit))
    && Claimable(s, picks, now) && |picks| == Min(limit, |pool|) && (forall i :: 0 <= i < |picks| ==> picks[i] in pool)
    && claimed == Claimed(picks, now, lease)
    && t == ClaimAll(s, picks, now, lease, []).store
    && t.jobs == AfterClaims(s.jobs, Ids(picks), now, lease) && Consistent(t)
  }

  lemma RankedClaimable(s: Store, pool: set<Job>, now: Time, stats: Stats, limit: nat)
    requires Consistent(s) && pool <= s.jobs.Values && DistinctIds(pool)
    requires forall j :: j in pool ==> ReadyForClaim(j, now)
    ensures Claimable(s, Rank(pool, now, stats, limit), now)
  {
    hide Rank, Consistent, ReadyForClaim, DistinctIds;
    var picks := Rank(pool, now, stats, limit);
    RankDistinct(pool, now, stats, limit);
    forall i | 0 <= i < |picks|
      ensures picks[i].id in s.jobs && s.jobs[picks[i].id] == picks[i]
    {
      assert picks[i] in s.jobs.Values;
      var id :| id in s.jobs && s.jobs[id] == picks[i];
      HistoryOf(s, id);
    }
  }

  lemma {:induction false} StatsExist(jobs: set<Job>, activities: set<Activity>) returns (stats: Stats)
    ensures StatsOf(stats, jobs, activities)
    decreases |jobs| + |activities|
  {
    hide StatsOf;
    if activities != {} {
      var a :| a in activities;
      var before := StatsExist(jobs, activities - {a});
      NotedDispatchStep(before, jobs, activities - {a}, a);
      assert (activities - {a}) + {a} == activities;
      stats := NotedDispatch(before, a);
    } else if jobs != {} {
      var j :| j in jobs;
      var before := StatsExist(jobs - {j}, {});
      CountedJobStep(before, jobs - {j}, j);
      assert (jobs - {j}) + {j} == jobs;
      stats := CountedJob(before, j);
    } else {
      NoStats();
      stats := map[];
    }
  }

  lemma ClaimSummary(s: Store, pool: set<Job>, picks: seq<Job>, now: Time, lease: Lease, limit: nat)
    requires Consistent(s) && pool <= s.jobs.Values && DistinctIds(pool)
    requires forall j :: j in pool ==> ReadyForClaim(j, now)
    requires forall stats :: StatsOf(stats, s.jobs.Values, Activities(s)) ==> picks == Rank(pool, now, stats, limit)
    ensures Claimable(s, picks, now) && |picks| == Min(limit, |pool|)
    ensures ClaimedFrom(s, ClaimAll(s, picks, now, lease, []).store, pool, picks,
              ClaimAll(s, picks, now, lease, []).claimed, now, lease, limit)
    ensures ClaimAll(s, picks, now, lease, []).error == None
  {
    hide Rank, Consistent, ReadyForClaim, DistinctIds, StatsOf, Activities, ClaimAll, Claimable;
    var stats := StatsExist(s.jobs.Values, Activities(s));
    RankedClaimable(s, pool, now, stats, limit);
    ClaimBatch(s, picks, now, lease, []);
    assert [] + Claimed(picks, now, lease) == Claimed(picks, now, lease);
  }

  /** The jobs at the versions the references ask for. */
  ghost function NamedJobs(jobs: map<string, Job>, references: seq<Reference>): map<string, Job>
  {
    map id | id in jobs && WantedVersion(references, jobs[id].id) == jobs[id].statusVersion :: jobs[id]
  }

  /** The claimable ones of some stored jobs. */
  ghost function ReadyPart(was: map<string, Job>, now: Time): set<Job>
  {
    set id | id in was && ReadyForClaim(was[id], now) :: was[id]
  }

  lemma AllPicked(pool: set<Job>, picks: seq<Job>)
    requires DistinctSeq(picks) && |picks| == |pool| && forall i :: 0 <= i < |picks| ==> picks[i] in pool
    ensures Members(picks) == pool
  {
    MembersCard(picks);
    assert Members(picks) <= pool;
    assert pool == Members(picks) + (pool - Members(picks));
  }

  lemma ClaimedIn(picks: seq<Job>, claimed: seq<Job>, now: Time, lease: Lease, job: Job)
    requires claimed == Claimed(picks, now, lease) && job in picks
    ensures job.id in Ids(claimed)
  {
    hide ClaimedJob;
    var i :| 0 <= i < |picks| && picks[i] == job;
    ClaimKeepsId(job, now, lease);
    assert claimed[i] in claimed;
  }

  /** A claim from the claimable part of some stored jobs is prompt for those jobs. */
  lemma PromptClaim(s: Store, t: Store, was: map<string, Job>, picks: seq<Job>, claimed: seq<Job>, now: Time,
      lease: Lease, limit: nat)
    requires Consistent(s) && ClaimedFrom(s, t, ReadyPart(was, now), picks, claimed, now, lease, limit)
    requires forall id :: id in was ==> id in s.jobs && was[id] == s.jobs[id]
    ensures Prompt(was, claimed, now, lease, limit)
  {
    hide Consistent, Rank, StatsOf, ClaimAll, AfterClaims, ClaimedJob, ReadyForClaim, TooEarly, Overdue, ClaimOf;
    var pool := ReadyPart(was, now);
    forall id | id in was
      ensures was[id].id == id
    {
      HistoryOf(s, id);
    }
    forall j | j in claimed
      ensures j.id in was && !TooEarly(was[j.id], now) && ClaimOf(was[j.id], j, now, lease)
    {
      var i :| 0 <= i < |claimed| && claimed[i] == j;
      assert picks[i] in pool;
      ReadyExactly(picks[i], now);
      ClaimWrites(picks[i], now, lease);
      ClaimKeepsId(picks[i], now, lease);
    }
    if |claimed| < limit {
      AllPicked(pool, picks);
      forall id | id in was && Overdue(was[id], now)
        ensures id in Ids(claimed)
      {
        ReadyExactly(was[id], now);
        assert was[id] in Members(picks);
        ClaimedIn(picks, claimed, now, lease, was[id]);
      }
    }
  }

  lemma PickStored(s: Store, picks: seq<Job>, now: Time, lease: Lease, i: nat)
    requires Claimable(s, picks, now) && i < |picks|
    ensures var id := picks[i].id;
            && id in s.jobs && s.jobs[id] == picks[i] && ClaimedJob(picks[i], now, lease).id == id
            && id in Ids(picks) && AfterClaims(s.jobs, Ids(picks), now, lease)[id] == ClaimedJob(picks[i], now, lease)
  {
    hide ReadyForClaim;
    assert picks[i] in picks;
  }

  lemma RestUnclaimed(jobs: map<string, Job>, picks: seq<Job>, now: Time, lease: Lease, id: string)
    requires id in jobs && id !in Ids(Claimed(picks, now, lease))
    ensures AfterClaims(jobs, Ids(picks), now, lease)[id] == jobs[id]
  {
    hide ClaimedJob;
    if id in Ids(picks) {
      var p :| p in picks && p.id == id;
      ClaimedIn(picks, Claimed(picks, now, lease), now, lease, p);
    }
  }

  /** A claim stores exactly the claimed jobs, records each once and keeps every earlier record. */
  lemma LawfulClaim(s: Store, t: Store, pool: set<Job>, picks: seq<Job>, claimed: seq<Job>, now: Time, lease: Lease,
      limit: nat)
    requires Consistent(s) && ClaimedFrom(s, t, pool, picks, claimed, now, lease, limit)
    ensures ClaimLaw(s, t, claimed, now)
  {
    hide Consistent, Rank, StatsOf, ClaimAll, ClaimedJob, Claimable, ClaimRecorded, RecordsKept, AfterClaims,
         FairQuery.ReadyRows, Activities, DistinctIds;
    ClaimRecords(s, picks, now, lease, []);
    AfterKeys(s.jobs, Ids(picks), now, lease);
    forall j | j in claimed
      ensures j.id in s.jobs && t.jobs[j.id] == j && ClaimRecorded(t, s.jobs[j.id], now)
    {
      var i :| 0 <= i < |claimed| && claimed[i] == j;
      PickStored(s, picks, now, lease, i);
      assert picks[i] in picks;
    }
    forall id | id in s.jobs && id !in Ids(claimed)
      ensures t.jobs[id] == s.jobs[id]
    {
      RestUnclaimed(s.jobs, picks, now, lease, id);
    }
  }

  lemma AfterKeys(jobs: map<string, Job>, ids: set<string>, now: Time, lease: Lease)
    ensures AfterClaims(jobs, ids, now, lease).Keys == jobs.Keys
  {
    hide ClaimedJob;
  }

  lemma KeyedStore(s: Store)
    requires Consistent(s)
    ensures DistinctIds(s.jobs.Values) && forall id :: id in s.jobs ==> s.jobs[id].id == id
  {
    hide JobHistory;
    StoredIdsDistinct(s);
  }

  /** A claim serves its pool in order, whatever table holds the statistics of the store. */
  lemma ClaimServes(s: Store, t: Store, pool: set<Job>, picks: seq<Job>, claimed: seq<Job>, now: Time, lease: Lease,
      limit: nat, stats: Stats)
    requires ClaimedFrom(s, t, pool, picks, claimed, now, lease, limit) && StatsOf(stats, s.jobs.Values, Activities(s))
    ensures ServedInOrder(picks, pool, stats, now)
  {
    hide Rank, ServedInOrder, ClaimAll, AfterClaims, Claimable, Consistent, StatsOf;
    RankInOrder(pool, now, stats, limit);
  }

  lemma ReadyParts(s: Store, references: seq<Reference>, now: Time)
    requires Consistent(s)
    ensures ReadyPart(s.jobs, now) == FairQuery.ReadyRows(s.jobs.Values, now)
    ensures ReadyPart(NamedJobs(s.jobs, references), now) == ReferencedRows(s.jobs.Values, references, now)
  {
    hide Consistent, ReadyForClaim;
    var named := NamedJobs(s.jobs, references);
    forall j | j in ReferencedRows(s.jobs.Values, references, now)
      ensures j in ReadyPart(named, now)
    {
      var id :| id in s.jobs && s.jobs[id] == j;
      assert id in named && named[id] == j;
    }
  }

  class MemoryRepository {
    var jobs: map<string, Job>
    var events: map<EventKey, Event>
    var operations: map<string, Operation>
    var outbox: map<EventKey, OutboxRow>

    ghost function Contents(): Store
      reads this
    {
      Store(jobs, events, operations, outbox)
    }

    constructor ()
      ensures Contents() == EMPTY
    {
      jobs, events, operations, outbox := map[], map[], map[], map[];
    }

    method Save(c: Change, at: Time)
      modifies this
      ensures Contents() == Recorded(old(Contents()), c, at)
    {
      var op := if c.job.operationId in operations then operations[c.job.operationId] else NO_OPERATION;
      op := ApplyOperationStatus(op, c.job.status, c.job.errorType, at);
      operations := operations[op.id := op];
      jobs := jobs[c.job.id := c.job];
      events := events[KeyOf(c.job) := c.event];
      outbox := outbox[KeyOf(c.job) := c.outbox];
    }

    /** Commit a prepared change unless an event, outbox row or missing operation forbids it. */
    method Commit(change: Result<Change, Error>, at: Time) returns (job: Option<Job>, error: Option<Error>)
      modifies this
      ensures var r := Guarded(old(Contents()), change);
              && Contents() == RecordedIf(old(Contents()), r, at)
              && error == (if r.Failure? then Some(r.error) else None)
              && job == (if r.Success? then Some(r.value.value.job) else None)
    {
      match change
      case Failure(e) => return None, Some(e);
      case Success(c) =>
        if KeyOf(c.job) in events {
          return None, Some(EventExists);
        }
        if !OutboxInsertable(outbox, KeyOf(c.job), c.outbox) {
          return None, Some(OutboxExists);
        }
        if c.job.operationId !in operations {
          return None, Some(OperationMissing);
        }
        Save(c, at);
        return Some(c.job), None;
    }

    method TransitionJob(id: string, version: int, fence: int, to: Status, reason: string, at: Time)
      returns (job: Option<Job>, updated: bool, error: Option<Error>)
      modifies this
      ensures var r := Transition(old(Contents()), id, version, fence, to, reason, at);
              && Contents() == RecordedIf(old(Contents()), r, at)
              && error == (if r.Failure? then Some(r.error) else None)
              && updated == (r.Success? && r.value.Some?)
              && (updated ==> job == Some(r.value.value.job))
      ensures old(Consistent(Contents())) ==>
                TransitionLaw(old(Contents()), Contents(), id, version, fence, to, reason, at, updated, error)
    {
      hide TransitionLaw, PrepareTransition, OutboxInsertable, Recorded, Consistent;
      if Consistent(Contents()) {
        TransitionLawHolds(Contents(), id, version, fence, to, reason, at);
      }
      if id !in jobs || jobs[id].statusVersion != version || (jobs[id].fenceToken > 0 && jobs[id].fenceToken != fence) {
        return (if id in jobs then Some(jobs[id]) else None), false, None;
      }
      job, error := Commit(PrepareTransition(jobs[id], to, reason, at), at);
      updated := error == None;
    }

    method RequeueJob(id: string, version: int, fence: int, reason: string, next: Time, at: Time)
      returns (job: Option<Job>, updated: bool, error: Option<Error>)
      modifies this
      ensures var r := Requeue(old(Contents()), id, version, fence, reason, next, at);
              && Contents() == RecordedIf(old(Contents()), r, at)
              && error == (if r.Failure? then Some(r.error) else None)
              && updated == (r.Success? && r.value.Some?)
              && (updated ==> job == Some(r.value.value.job))
      ensures old(Consistent(Contents())) ==>
                RequeueLaw(old(Contents()), Contents(), id, version, fence, reason, next, at, updated, error)
    {
      hide RequeueLaw, PrepareTransition, OutboxInsertable, Recorded, Consistent;
      if Consistent(Contents()) {
        RequeueLawHolds(Contents(), id, version, fence, reason, next, at);
      }
      if id !in jobs || jobs[id].statusVersion != version || (jobs[id].fenceToken > 0 && jobs[id].fenceToken != fence) {
        return (if id in jobs then Some(jobs[id]) else None), false, None;
      }
      var change := PrepareTransition(jobs[id], Queued, reason, at);
      if change.Success? {
        var c := change.value;
        change := Success(c.(job := c.job.(nextEligibleAt := if next > at then next else at)));
      }
      job, error := Commit(change, at);
      updated := error == None;
    }

    /** Cancellation; `allowed` is the ownership test, always true for an administrator. */
    method RequestCancellation(id: string, allowed: bool, reason: string, at: Time)
      returns (job: Option<Job>, changed: bool, found: bool, error: Option<Error>)
      modifies this
      ensures var r := Cancel(old(Contents()), id, allowed, reason, at);
              && Contents() == RecordedIf(old(Contents()), r, at)
              && error == (if r.Failure? then Some(r.error) else None)
              && changed == (r.Success? && r.value.Some?)
              && found == (id in old(jobs) && allowed)
              && (changed ==> job == Some(r.value.value.job))
              && (found && !changed && error == None ==> job == Some(old(jobs)[id]))
      ensures old(Consistent(Contents())) ==>
                CancelLaw(old(Contents()), Contents(), id, allowed, reason, at, changed, error)
    {
      hide PrepareTransition, OutboxInsertable, Recorded, CancelLaw, Consistent;
      if Consistent(Contents()) {
        CancelLawHolds(Contents(), id, allowed, reason, at);
      }
      if id !in jobs || !allowed {
        return None, false, false, None;
      }
      var current := jobs[id];
      found := true;
      match current.status {
        case Canceling | Canceled => return Some(current), false, true, None;
        case Succeeded | Failed | Unknown | Expired => return Some(current), false, true, Some(NotCancelable);
        case _ =>
      }
      var to := if current.status == Accepted || current.status == Queued then Canceled else Canceling;
      var change := PrepareTransition(current, to, reason, at);
      if change.Success? && current.status == Dispatching {
        var c := change.value;
        change := Success(c.(job := c.job.(fenceToken := c.job.fenceToken + 1)));
      }
      job, error := Commit(change, at);
      changed := error == None;
    }

    method ExtendQueueLease(id: string, version: int, fence: int, token: string, until: Time, at: Time)
      returns (job: Option<Job>, extended: bool)
      modifies this
      ensures Contents() == Extend(old(Contents()), id, version, fence, token, until, at)
      ensures extended == Extendable(old(Contents()), id, version, fence, token, until, at)
      ensures extended ==> job == Some(jobs[id])
      ensures ExtendLaw(old(Contents()), Contents(), id, version, fence, token, until, at, extended)
    {
      if until <= at || token == "" {
        return None, false;
      }
      if id !in jobs {
        return None, false;
      }
      var current := jobs[id];
      if current.status != Dispatching || current.statusVersion != version || current.fenceToken != fence ||
         current.leaseUntil.None? || current.leaseUntil.value <= at || current.leaseToken != token {
        return Some(current), false;
      }
      if until > current.leaseUntil.value {
        current := current.(leaseUntil := Some(until));
        if at > current.updatedAt {
          current := current.(updatedAt := at);
        }
      }
      jobs := jobs[id := current];
      return Some(current), true;
    }

    // ---- Claims ----

    /** All stored jobs, in whatever order the map yields them. */
    method ListJobs() returns (list: seq<Job>)
      requires forall id :: id in jobs ==> jobs[id].id == id
      ensures DistinctSeq(list) && Members(list) == jobs.Values
    {
      list := [];
      var rest := jobs.Keys;
      while rest != {}
        invariant rest <= jobs.Keys && DistinctSeq(list)
        invariant forall i :: 0 <= i < |list| ==>
                  list[i].id in jobs && list[i].id !in rest && list[i] == jobs[list[i].id]
        invariant forall id :: id in jobs && id !in rest ==> jobs[id] in list
        decreases |rest|
      {
        var id :| id in rest;
        rest := rest - {id};
        list := list + [jobs[id]];
      }
    }

    method ListActivities() returns (list: seq<Activity>)
      ensures Members(list) == Activities(Contents())
    {
      list := [];
      var rest := events.Keys;
      while rest != {}
        invariant rest <= events.Keys
        invariant forall a :: a in list ==> a in Activities(Contents())
        invariant forall k ::
                    k in events && k !in rest && events[k].kind == EventScheduled && events[k].jobId in jobs ==>
                      Activity(jobs[events[k].jobId].scope, events[k].at) in list
        decreases |rest|
      {
        var k :| k in rest;
        rest := rest - {k};
        if events[k].kind == EventScheduled && events[k].jobId in jobs {
          list := list + [Activity(jobs[events[k].jobId].scope, events[k].at)];
        }
      }
    }

    method ClaimCandidates(candidates: seq<Job>, now: Time, lease: Lease, limit: nat)
      returns (claimed: seq<Job>, error: Option<Error>)
      requires |candidates| <= limit
      modifies this
      ensures var r := ClaimAll(old(Contents()), candidates, now, lease, []);
              Contents() == r.store && claimed == r.claimed && error == r.error
    {
      claimed, error := [], None;
      for i := 0 to |candidates|
        invariant ClaimAll(old(Contents()), candidates, now, lease, [])
               == ClaimAll(Contents(), candidates[i..], now, lease, claimed)
        invariant |claimed| == i
        invariant error == None
      {
        if |claimed| >= limit {
          break;
        }
        assert candidates[i..][0] == candidates[i] && candidates[i..][1..] == candidates[i + 1..];
        var prepared := PrepareClaim(candidates[i], now);
        if prepared.Failure? {
          return [], Some(prepared.error);
        }
        var c := Leased(prepared.value, lease);
        if KeyOf(c.job) in events {
          return [], Some(EventExists);
        }
        if !OutboxInsertable(outbox, KeyOf(c.job), c.outbox) {
          return [], Some(OutboxExists);
        }
        Save(c, now);
        claimed := claimed + [c.job];
      }
    }

    /** Claim the fairest ready jobs. */
    method ClaimQueued(now: Time, lease: Lease, limit: int)
      returns (claimed: seq<Job>, error: Option<Error>, ghost picks: seq<Job>)
      requires Consistent(Contents())
      modifies this
      ensures error == None
      ensures ClaimRefused(lease, now, limit) ==> claimed == [] && picks == [] && Contents() == old(Contents())
      ensures !ClaimRefused(lease, now, limit) ==>
                ClaimedFrom(old(Contents()), Contents(), FairQuery.ReadyRows(old(jobs).Values, now), picks, claimed,
                    now, lease, limit)
      ensures !ClaimRefused(lease, now, limit) ==> Prompt(old(jobs), claimed, now, lease, limit)
      ensures !ClaimRefused(lease, now, limit) ==> ClaimLaw(old(Contents()), Contents(), claimed, now)
    {
      hide ClaimLaw, Rank, StatsOf, ClaimAll, Activities, ReadyForClaim, JobHistory, ClaimedFrom, Prompt, ReadyPart,
           Consistent,
           ServedInOrder;
      ghost var start := Contents();
      KeyedStore(start);
      ReadyParts(start, [], now);
      claimed, error, picks := [], None, [];
      if limit <= 0 || lease.worker == "" || lease.token == "" || lease.until <= now {
        return;
      }
      var all := ListJobs();
      var candidates := Ready(all, now);
      ghost var pool := FairQuery.ReadyRows(jobs.Values, now);
      var activities := ListActivities();
      var ranked := RankFairCandidates(candidates, all, activities, now, limit);
      picks := ranked;
      ClaimSummary(Contents(), pool, picks, now, lease, limit);
      claimed, error := ClaimCandidates(ranked, now, lease, limit);
      PromptClaim(start, Contents(), start.jobs, picks, claimed, now, lease, limit);
      LawfulClaim(start, Contents(), pool, picks, claimed, now, lease, limit);
    }

    /** Claim ready jobs, but only at the versions a hint refers to. */
    method ClaimByReferences(references: seq<Reference>, now: Time, lease: Lease, limit: int)
      returns (claimed: seq<Job>, error: Option<Error>, ghost picks: seq<Job>)
      requires Consistent(Contents())
      modifies this
      ensures error == None
      ensures ClaimRefused(lease, now, limit) || references == [] ==>
                claimed == [] && picks == [] && Contents() == old(Contents())
      ensures !ClaimRefused(lease, now, limit) && references != [] ==>
                ClaimedFrom(old(Contents()), Contents(), ReferencedRows(old(jobs).Values, references, now), picks,
                    claimed, now, lease, limit)
      ensures !ClaimRefused(lease, now, limit) && references != [] ==>
                Prompt(NamedJobs(old(jobs), references), claimed, now, lease, limit)
      ensures !ClaimRefused(lease, now, limit) && references != [] ==>
                ClaimLaw(old(Contents()), Contents(), claimed, now)
    {
      hide ClaimLaw, Rank, StatsOf, ClaimAll, Activities, ReadyForClaim, JobHistory, ClaimedFrom, Prompt, ReadyPart,
           Consistent,
           ServedInOrder;
      ghost var start := Contents();
      KeyedStore(start);
      ReadyParts(start, references, now);
      claimed, error, picks := [], None, [];
      if limit <= 0 || |references| == 0 || lease.worker == "" || lease.token == "" || lease.until <= now {
        return;
      }
      var all := ListJobs();
      var ready := Ready(all, now);
      var wanted := Wanted(references);
      var candidates := Matching(ready, wanted, references);
      ghost var pool := ReferencedRows(jobs.Values, references, now);
      forall x
        ensures x in Members(candidates) <==> x in pool
      {
        assert x in ready <==> x in Members(ready);
        assert x in candidates <==> x in Members(candidates);
      }
      assert Members(candidates) == pool;
      var activities := ListActivities();
      var ranked := RankFairCandidates(candidates, all, activities, now, limit);
      picks := ranked;
      ClaimSummary(Contents(), pool, picks, now, lease, limit);
      claimed, error := ClaimCandidates(ranked, now, lease, limit);
      PromptClaim(start, Contents(), NamedJobs(start.jobs, references), picks, claimed, now, lease, limit);
      LawfulClaim(start, Contents(), pool, picks, claimed, now, lease, limit);
    }

    // ---- Admission ----

    method FindReplay(job: Job) returns (found: Option<Job>)
      ensures found.Some? ==> found.value in jobs.Values && SameIdempotencyScope(found.value, job)
      ensures found.None? ==> forall id :: id in jobs ==> !SameIdempotencyScope(jobs[id], job)
    {
      var rest := jobs.Keys;
      while rest != {}
        invariant rest <= jobs.Keys
        invariant forall id :: id in jobs && id !in rest ==> !SameIdempotencyScope(jobs[id], job)
        decreases |rest|
      {
        var id :| id in rest;
        rest := rest - {id};
        if SameIdempotencyScope(jobs[id], job) {
          return Some(jobs[id]);
        }
      }
      return None;
    }

    /** Admit a job, replay the one its idempotency scope owns, or refuse without any change. */
    method CreateDurableJob(operation: Operation, job: Job, event: Event, row: OutboxRow, limits: Limits,
        budgetOk: bool)
      returns (result: CreateResult)
      modifies this
      ensures !ValidAdmission(operation, job, event, row) || !ValidLimits(limits) ==> result == Refuse(InvalidAdmission)
      ensures ValidAdmission(operation, job, event, row) && ValidLimits(limits) ==>
                (result.Replay? <==> Owns(old(jobs), job))
      ensures ValidAdmission(operation, job, event, row) && ValidLimits(limits) && !result.Replay? ==>
                var verdict := Verdict(old(Contents()), operation, job, row, limits, budgetOk);
                if verdict.Some? then result == Refuse(verdict.value) else result == Admit(job)
      ensures result.Admit? <==> Admits(old(Contents()), operation, job, event, row, limits, budgetOk)
      ensures result.Admit? ==> Admitted(old(Contents()), Create(operation, job, job.createdAt), limits)
      ensures result.Replay? ==> result.job in old(jobs).Values && SameIdempotencyScope(result.job, job)
      ensures !result.Admit? ==> Contents() == old(Contents())
      ensures result.Admit? ==>
                Contents() == Store(old(jobs)[job.id := job], old(events)[KeyOf(job) := event],
                                    old(operations)[operation.id := operation], old(outbox)[KeyOf(job) := row])
      ensures SubmissionLaw(old(Contents()), operation, job, event, row, limits, budgetOk, result, Contents())
    {
      hide QueueCounts, WithinLimits, Room, Unused, OutboxInsertable;
      OwnsExactly(jobs, job);
      RoomExactly(jobs, job.scope, limits);
      if ValidAdmission(operation, job, event, row) {
        UnusedExactly(Contents(), operation, job, event, row);
      }
      if !ValidAdmission(operation, job, event, row) || !ValidLimits(limits) {
        return Refuse(InvalidAdmission);
      }
      var replay := FindReplay(job);
      if replay.Some? {
        return Replay(replay.value);
      }
      var counts := CountQueue(jobs, job.scope);
      if !WithinLimits(limits, counts) {
        return Refuse(CapacityExceeded);
      }
      if operation.id in operations || job.id in jobs || KeyOf(job) in events {
        return Refuse(AlreadyExists);
      }
      if !OutboxInsertable(outbox, KeyOf(job), row) {
        return Refuse(OutboxExists);
      }
      if !budgetOk {
        return Refuse(BudgetExceeded);
      }
      operations := operations[operation.id := operation];
      jobs := jobs[job.id := job];
      events := events[KeyOf(job) := event];
      outbox := outbox[KeyOf(job) := row];
      return Admit(job);
    }
  }

  method Ready(all: seq<Job>, now: Time) returns (ready: seq<Job>)
    requires DistinctSeq(all)
    ensures DistinctSeq(ready) && Members(ready) == FairQuery.ReadyRows(Members(all), now)
  {
    hide ReadyForClaim;
    ready := [];
    for i := 0 to |all|
      invariant DistinctSeq(ready)
      invariant forall x :: x in ready <==> x in all[..i] && ReadyForClaim(x, now)
    {
      assert all[..i + 1] == all[..i] + [all[i]];
      if ReadyForClaim(all[i], now) {
        forall j | 0 <= j < |ready|
          ensures ready[j].id != all[i].id
        {
          assert ready[j] in all[..i];
        }
        ready := ready + [all[i]];
      }
    }
    assert all[..|all|] == all;
  }

  /** The version each reference asks for; a later reference to the same job wins. */
  method Wanted(references: seq<Reference>) returns (wanted: map<string, int>)
    ensures forall id :: (if id in wanted then wanted[id] else 0) == WantedVersion(references, id)
  {
    wanted := map[];
    for i := 0 to |references|
      invariant forall id :: (if id in wanted then wanted[id] else 0) == WantedVersion(references[..i], id)
    {
      assert references[..i + 1][..i] == references[..i];
      if references[i].jobId != "" && references[i].statusVersion > 0 {
        wanted := wanted[references[i].jobId := references[i].statusVersion];
      }
    }
    assert references[..|references|] == references;
  }

  method Matching(ready: seq<Job>, wanted: map<string, int>,
      ghost references: seq<Reference>)
    returns (matching: seq<Job>)
    requires DistinctSeq(ready)
    requires forall id :: (if id in wanted then wanted[id] else 0) == WantedVersion(references, id)
    ensures DistinctSeq(matching)
    ensures forall x :: x in matching <==> x in ready && WantedVersion(references, x.id) == x.statusVersion
  {
    hide WantedVersion;
    matching := [];
    for i := 0 to |ready|
      invariant DistinctSeq(matching)
      invariant forall x :: x in matching <==> x in ready[..i] && WantedVersion(references, x.id) == x.statusVersion
    {
      assert ready[..i + 1] == ready[..i] + [ready[i]];
      if (if ready[i].id in wanted then wanted[ready[i].id] else 0) == ready[i].statusVersion {
        matching := matching + [ready[i]];
      }
    }
    assert ready[..|ready|] == ready;
  }
}
