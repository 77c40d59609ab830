/** The job service: every call changes the repository first and the ready index after it. */
module Service {
  import opened Base
  import opened JobModel
  import opened FairQueue
  import opened JobStore
  import opened JobSteps
  import opened JobRuns
  import opened Admission
  import opened Repository
  import opened ReadyIndex
  import opened Agreement
  import opened Claiming
  import opened Healing
  import opened JobEffects
  import opened Promptness
  import FairQuery
  import opened Envelopes

  datatype Failure =
    | InvalidEnvelope | InvalidLease | JobNotFound | StateConflict | FingerprintConflict
    | RepositoryError(error: Error)

  /** How the ready index answers during a call: fully, except for candidate reads, not at all, or there is none. */
  datatype IndexMode = Up | CandidatesFail | Failing | Absent

  predicate Writable(mode: IndexMode) { mode == Up || mode == CandidatesFail }

  /** Sixteen candidates for every job wanted, at most 1024. */
  function CandidateLimit(limit: int): (n: int)
    ensures n == Min(1024, 16 * Max(limit, 0))
  {
    if limit <= 0 then 0 else if limit > 64 then 1024 else limit * 16
  }

  /** How the service reports a guarded change: errors as they are, nothing updated as a conflict. */
  function FailureOf(r: Result<Option<Change>, Error>): Option<Failure>
  {
    match r
    case Failure(e) => Some(RepositoryError(e))
    case Success(None) => Some(StateConflict)
    case Success(Some(_)) => None
  }

  function ErrorOf(failure: Option<Failure>): Option<Error>
  {
    if failure.Some? && failure.value.RepositoryError? then Some(failure.value.error) else None
  }

  lemma KeyedRegister(m: Entries, e: Entry)
    requires Keyed(m)
    ensures Keyed(Registered(m, e))
  {
    hide ValidEntry;
  }

  lemma KeyedRemove(m: Entries, r: Reference)
    requires Keyed(m)
    ensures Keyed(Removed(m, r))
  {
    hide ValidEntry;
  }

  lemma AgreesMore(jobs: map<string, Job>, m: Entries, pending: set<string>, more: set<string>)
    requires Agrees(jobs, m, pending)
    requires forall id :: id in pending && id in jobs && Indexed(jobs[id].status) ==> id in more
    ensures Agrees(jobs, m, more)
  {
    hide Fits;
  }

  /** A claim is the step its picks define. */
  lemma ClaimSound(s: Store, t: Store, pool: set<Job>, picks: seq<Job>, claimed: seq<Job>, now: Time, lease: Lease,
      limit: nat, clock: Time)
    requires Sound(s, clock) && clock <= now && lease.until > now && lease.token != ""
    requires ClaimedFrom(s, t, pool, picks, claimed, now, lease, limit)
    ensures Sound(t, now)
  {
    hide Rank, StatsOf, ClaimAll, AfterClaims, Claimable;
    hide Sound;
    StepSound(s, Claim(picks, lease, now), clock);
  }

  lemma ClaimAgrees(s: Store, t: Store, m: Entries, pending: set<string>, ids: set<string>, now: Time, lease: Lease)
    requires Agrees(s.jobs, m, pending) && t.jobs == AfterClaims(s.jobs, ids, now, lease)
    ensures Agrees(t.jobs, m, pending + ids)
  {
    hide Agrees;
    ChangeAgrees(s.jobs, t.jobs, m, pending, ids);
    AgreesMore(t.jobs, m, pending + ids, pending + ids);
  }

  class JobService {
    const repo: MemoryRepository
    const index: MemoryReadyIndex

    constructor ()
      ensures fresh(repo) && fresh(index) && Valid(0)
    {
      repo := new MemoryRepository();
      index := new MemoryReadyIndex();
      new;
      EmptyConsistent();
    }

    /** Store sound, index keyed, and both in agreement except for the jobs still to be registered. */
    ghost predicate Tracks(clock: Time, pending: set<string>)
      reads repo, index
    {
      Sound(repo.Contents(), clock) && Keyed(index.entries) && Agrees(repo.jobs, index.entries, pending)
    }

    /** Store and index in full agreement. */
    ghost predicate Valid(clock: Time)
      reads repo, index
    {
      Tracks(clock, {})
    }

    method RegisterState(job: Job)
      requires Keyed(index.entries)
      modifies index
      ensures Keyed(index.entries) && index.entries == RegisteredState(old(index.entries), job)
    {
      if job.status != Queued && job.status != Dispatching {
        return;
      }
      var entry := NewEntry(job);
      if entry.Some? {
        KeyedRegister(index.entries, entry.value);
        var _ := index.Register(entry.value);
      }
    }

    method RemoveReference(reference: Reference)
      requires Keyed(index.entries)
      modifies index
      ensures Keyed(index.entries) && index.entries == Removed(old(index.entries), reference)
    {
      if reference.jobId != "" && reference.statusVersion > 0 {
        KeyedRemove(index.entries, reference);
        var _ := index.Remove(reference);
      }
    }

    /**
     Drop hints of claimed jobs and replace hints that no longer describe their job. Afterwards an
     entry that still equals one of the hints describes a stored, claimable job.
     */
    method Reconcile(candidates: seq<Entry>, claimed: seq<Job>, now: Time, ghost clock: Time,
        ghost pending: set<string>)
      requires Consistent(repo.Contents()) && Keyed(index.entries)
      requires Ids(claimed) <= pending && forall i :: 0 <= i < |claimed| ==>
                claimed[i].id in repo.jobs && repo.jobs[claimed[i].id] == claimed[i]
      modifies index
      ensures Keyed(index.entries)
      ensures AllHealed(repo.jobs, index.entries, candidates)
      ensures Sound(repo.Contents(), clock) && Agrees(repo.jobs, old(index.entries), pending) ==>
                Agrees(repo.jobs, index.entries, pending)
    {
      hide Keyed, Sound, Agrees, Consistent, Healed;
      ghost var good := Sound(repo.Contents(), clock) && Agrees(repo.jobs, index.entries, pending);
      for i := 0 to |candidates|
        invariant Keyed(index.entries)
        invariant AllHealed(repo.jobs, index.entries, candidates[..i])
        invariant good ==> Agrees(repo.jobs, index.entries, pending)
      {
        ghost var before := index.entries;
        ReconcileOne(candidates[i], claimed, now, clock, pending, good);
        StillHealed(repo.jobs, before, index.entries, candidates[..i]);
        assert candidates[..i + 1] == candidates[..i] + [candidates[i]];
      }
      assert candidates[..|candidates|] == candidates;
    }

    method ReconcileOne(candidate: Entry, claimed: seq<Job>, now: Time, ghost clock: Time, ghost pending: set<string>,
        ghost good: bool)
      requires Consistent(repo.Contents()) && Keyed(index.entries)
      requires Ids(claimed) <= pending && forall i :: 0 <= i < |claimed| ==>
                claimed[i].id in repo.jobs && repo.jobs[claimed[i].id] == claimed[i]
      requires good ==> Sound(repo.Contents(), clock) && Agrees(repo.jobs, index.entries, pending)
      modifies index
      ensures Keyed(index.entries)
      ensures Healed(repo.jobs, index.entries, candidate) && Improves(repo.jobs, old(index.entries), index.entries)
      ensures good ==> Agrees(repo.jobs, index.entries, pending)
    {
      hide Keyed, Sound, Agrees, EntryOf, ReadyForClaim, Consistent, Healed, Improves;
      var id := candidate.jobId;
      ghost var before := index.entries;
      var mine := exists j :: j in claimed && j.id == id;
      RemovalImproves(repo.jobs, before, candidate);
      if good {
        RemoveAgrees(repo.jobs, index.entries, pending, ReferenceOf(candidate));
      }
      if mine {
        assert id in Ids(claimed);
        RemoveReference(ReferenceOf(candidate));
        if good {
          AgreesMore(repo.jobs, index.entries, pending + {id}, pending);
        }
        return;
      }
      if id !in repo.jobs {
        RemoveReference(ReferenceOf(candidate));
        if good {
          AgreesMore(repo.jobs, index.entries, pending + {id}, pending);
        }
        return;
      }
      var job := repo.jobs[id];
      if job.statusVersion != candidate.statusVersion || (job.status != Queued && job.status != Dispatching) ||
         !ReadyForClaim(job, now) || ReadyAt(job) != candidate.readyAt {
        RemoveReference(ReferenceOf(candidate));
        if good {
          RegisterAgrees(repo.Contents(), clock, index.entries, pending + {id}, id);
        }
        RegistrationImproves(repo.Contents(), before, index.entries, id, candidate);
        RegisterState(job);
        if good {
          AgreesMore(repo.jobs, index.entries, pending + {id} - {id}, pending);
        }
      } else {
        GoodHint(repo.jobs, before, candidate);
      }
    }

    /** Register every job just claimed; what was pending besides them stays pending, other entries stay as they are. */
    method RegisterAll(jobs: seq<Job>, ghost clock: Time, ghost pending: set<string>)
      requires Keyed(index.entries)
      modifies index
      ensures Keyed(index.entries) && SameOutside(old(index.entries), index.entries, Ids(jobs))
      ensures Sound(repo.Contents(), clock) && Agrees(repo.jobs, old(index.entries), pending + Ids(jobs)) &&
              (forall i :: 0 <= i < |jobs| ==> jobs[i].id in repo.jobs && repo.jobs[jobs[i].id] == jobs[i])
              ==> Agrees(repo.jobs, index.entries, pending - Ids(jobs))
    {
      hide Keyed, Sound, Agrees, SameOutside;
      ghost var start := index.entries;
      SameAtStart(start, Ids(jobs));
      ghost var good := Sound(repo.Contents(), clock) && Agrees(repo.jobs, index.entries, pending + Ids(jobs)) &&
                        (forall i :: 0 <= i < |jobs| ==> jobs[i].id in repo.jobs && repo.jobs[jobs[i].id] == jobs[i]);
      NoIds();
      assert jobs[..0] == [];
      ghost var left := pending + Ids(jobs);
      assert left - {} == left;
      for i := 0 to |jobs|
        invariant Keyed(index.entries) && SameOutside(start, index.entries, Ids(jobs))
        invariant good ==> Agrees(repo.jobs, index.entries, left - Ids(jobs[..i]))
      {
        assert jobs[..i + 1] == jobs[..i] + [jobs[i]];
        assert Ids(jobs[..i + 1]) == Ids(jobs[..i]) + {jobs[i].id};
        assert jobs[i] in jobs;
        if good {
          RegisterAgrees(repo.Contents(), clock, index.entries, left - Ids(jobs[..i]), jobs[i].id);
        }
        SameAfterRegister(start, index.entries, Ids(jobs), jobs[i]);
        RegisterState(jobs[i]);
        assert left - Ids(jobs[..i]) - {jobs[i].id} == left - Ids(jobs[..i + 1]);
      }
      assert jobs[..|jobs|] == jobs;
      assert left - Ids(jobs) == pending - Ids(jobs);
    }

    /** The pass over the hints: claim what they name, whatever they say, then put the hints right. */
    method HintedPass(hints: seq<Entry>, now: Time, lease: Lease, limit: nat, ghost clock: Time,
        ghost pending: set<string>)
      returns (jobs: seq<Job>)
      requires Consistent(repo.Contents()) && Keyed(index.entries)
      requires limit > 0 && lease.token != "" && lease.until > now && clock <= now
      modifies repo, index
      ensures Consistent(repo.Contents()) && Keyed(index.entries)
      ensures Taken(old(repo.jobs), jobs, now, lease) && |jobs| <= limit
      ensures lease.worker != "" ==>
                |jobs| == Min(limit, |ReferencedRows(old(repo.jobs).Values, References(hints), now)|)
      ensures lease.worker != "" && (forall a, b :: 0 <= a < b < |hints| ==> hints[a].jobId != hints[b].jobId) ==>
                |jobs| == Min(limit, |NamedRows(old(repo.jobs).Values, hints, now)|)
      ensures forall j :: j in jobs ==> Hinted(hints, j.id, j.statusVersion - 1)
      ensures repo.jobs == AfterClaims(old(repo.jobs), Ids(jobs), now, lease)
      ensures lease.worker == "" ==> jobs == [] && repo.Contents() == old(repo.Contents())
      ensures AllHealed(repo.jobs, index.entries, hints)
      ensures old(Tracks(clock, pending)) ==> Tracks(now, pending + Ids(jobs))
    {
      hide Keyed, Sound, Agrees, Consistent, ClaimedFrom, Taken, AfterClaims, ReadyIds, ClaimedJob, ReferencedRows,
           Hinted, NamedRows;
      ghost var start, good := repo.Contents(), Tracks(clock, pending);
      ClaimNothing(start.jobs, now, lease);
      NoIds();
      NoRows(start, now);
      if forall a, b :: 0 <= a < b < |hints| ==> hints[a].jobId != hints[b].jobId {
        HintedRows(start, hints, now);
      }
      assert pending + {} == pending;
      if good {
        LaterSound(start, clock, now);
      }
      jobs := [];
      if |hints| > 0 {
        var references := References(hints);
        var claimed, error, picks := repo.ClaimByReferences(references, now, lease, limit);
        if lease.worker != "" {
          ghost var pool := ReferencedRows(start.jobs.Values, references, now);
          FirstPassTaken(start, repo.Contents(), pool, picks, claimed, now, lease, limit);
          ClaimedHinted(start, repo.Contents(), hints, picks, claimed, now, lease, limit);
          if good {
            ClaimSound(start, repo.Contents(), pool, picks, claimed, now, lease, limit, clock);
            ClaimAgrees(start, repo.Contents(), index.entries, pending, Ids(claimed), now, lease);
          }
        }
        jobs := claimed;
        TakenStored(start.jobs, repo.jobs, claimed, now, lease);
        Reconcile(hints, claimed, now, now, pending + Ids(claimed));
      }
    }

    /** The fallback pass over all jobs, up to what is left of the limit. */
    method ScanPass(first: seq<Job>, now: Time, lease: Lease, limit: nat, ghost start: Store,
        ghost pending: set<string>)
      returns (jobs: seq<Job>)
      requires Consistent(start) && Consistent(repo.Contents()) && Keyed(index.entries)
      requires limit > 0 && lease.token != "" && lease.until > now
      requires Taken(start.jobs, first, now, lease) && |first| <= limit
      requires repo.jobs == AfterClaims(start.jobs, Ids(first), now, lease)
      requires lease.worker == "" ==> first == []
      modifies repo
      ensures forall id :: id in old(repo.jobs) && id !in Ids(jobs) ==>
                id in repo.jobs && repo.jobs[id] == old(repo.jobs)[id]
      ensures lease.worker != "" ==> ExactClaim(start, repo.Contents(), jobs, now, lease, limit)
      ensures lease.worker == "" ==> jobs == [] && repo.Contents() == old(repo.Contents())
      ensures old(Tracks(now, pending + Ids(first))) ==> Tracks(now, pending + Ids(jobs))
    {
      hide Keyed, Sound, Agrees, Consistent, ClaimedFrom, ExactClaim, Taken, AfterClaims, ReadyIds, ClaimedJob;
      ghost var middle, good := repo.Contents(), Tracks(now, pending + Ids(first));
      jobs := first;
      if |first| < limit {
        var claimed, error, picks := repo.ClaimQueued(now, lease, limit - |first|);
        if lease.worker != "" {
          ghost var pool := FairQuery.ReadyRows(middle.jobs.Values, now);
          FirstPassTaken(middle, repo.Contents(), pool, picks, claimed, now, lease, limit - |first|);
          TwoPassExact(start, middle, repo.Contents(), first, picks, claimed, now, lease, limit);
          IdsConcat(first, claimed);
          AfterClaimsFrame(middle.jobs, Ids(claimed), Ids(first + claimed), now, lease);
          if good {
            ClaimSound(middle, repo.Contents(), pool, picks, claimed, now, lease, limit - |first|, now);
            ClaimAgrees(middle, repo.Contents(), index.entries, pending + Ids(first), Ids(claimed), now, lease);
            IdsConcat(first, claimed);
            assert pending + Ids(first) + Ids(claimed) == pending + Ids(first + claimed);
          }
        } else {
          assert first + claimed == [];
        }
        jobs := first + claimed;
      } else {
        FullPassExact(start, repo.Contents(), first, now, lease, limit);
      }
    }

    /**
     One scheduler claim. For any index contents, and also when the index fails, it claims exactly
     min(limit, ready) jobs. Agreement survives unless registrations fail too; then exactly the
     claimed jobs are left to register, and still no entry is ahead of its job. A blank worker claims
     nothing, but its hints are put right all the same.
     */
    method ClaimReady(worker: string, duration: int, limit: int, now: Time, token: string, mode: IndexMode,
        ghost clock: Time, ghost pending: set<string>)
      returns (jobs: seq<Job>, failure: Option<Failure>, ghost hints: seq<Entry>)
      requires Consistent(repo.Contents()) && Keyed(index.entries) && clock <= now && now != ZERO_TIME && token != ""
      modifies repo, index
      ensures Consistent(repo.Contents()) && Keyed(index.entries)
      ensures failure == if duration <= 0 then Some(InvalidLease) else None
      ensures duration <= 0 || limit <= 0 || worker == "" ==> jobs == [] && repo.Contents() == old(repo.Contents())
      ensures duration <= 0 || limit <= 0 || !Writable(mode) ==> index.entries == old(index.entries)
      ensures duration > 0 && limit > 0 && worker != "" ==>
                ExactClaim(old(repo.Contents()), repo.Contents(), jobs, now, Lease(now + duration, worker, token),
                    limit)
      ensures duration > 0 && limit > 0 && worker != "" ==>
                Prompt(old(repo.jobs), jobs, now, Lease(now + duration, worker, token), limit)
      ensures old(Tracks(clock, pending)) ==>
                Tracks(now, if Writable(mode) then pending - Ids(jobs) else pending + Ids(jobs))
      ensures duration > 0 && limit > 0 && mode == Up ==>
                && DistinctReady(hints, ReadyEntries(old(index.entries), now))
                && |hints| == Min(CandidateLimit(limit), |ReadyEntries(old(index.entries), now)|)
                && (old(Tracks(clock, pending)) ==> AllHealed(repo.jobs, index.entries, hints))
    {
      hide Sound, Agrees, Consistent, ReadyIds, AfterClaims, ClaimedJob, Keyed, ExactClaim, Taken, DistinctReady,
           Prompt,
           AllHealed, SameOutside;
      jobs, failure, hints := [], None, [];
      ghost var start, good := repo.Contents(), Tracks(clock, pending);
      NoIds();
      ClaimNothing(start.jobs, now, Lease(Max(0, now + duration), worker, token));
      assert pending + {} == pending;
      if good {
        LaterSound(start, clock, now);
      }
      if duration <= 0 {
        return [], Some(InvalidLease), [];
      }
      if limit <= 0 {
        return;
      }
      var lease := Lease(now + duration, worker, token);
      var first: seq<Job> := [];
      if mode == Up {
        var candidates, groups, round, position := index.Candidates(now, CandidateLimit(limit));
        first := HintedPass(candidates, now, lease, limit, clock, pending);
        hints := candidates;
      }
      ghost var middle, reconciled := repo.jobs, index.entries;
      jobs := ScanPass(first, now, lease, limit, start, pending);
      if worker != "" {
        ExactStored(start, repo.Contents(), jobs, now, lease, limit);
        ExactIsPrompt(start, repo.Contents(), jobs, now, lease, limit);
      }
      if mode == Up || mode == CandidatesFail {
        RegisterAll(jobs, now, pending);
      }
      if good && mode == Up {
        if worker != "" {
          ClaimedDispatched(start, repo.Contents(), jobs, now, lease, limit);
        }
        HealedAtEnd(middle, repo.jobs, reconciled, index.entries, hints, Ids(jobs), pending - Ids(jobs));
      }
    }

    /** Extend the lease of a dispatched job and re-index it at the same version. */
    method ExtendLease(envelope: Envelope, duration: int, now: Time, ghost clock: Time)
      returns (failure: Option<Failure>)
      requires Valid(clock) && clock <= now
      modifies repo, index
      ensures Valid(now)
      ensures !ValidEnvelope(envelope) || duration <= 0 ==> repo.Contents() == old(repo.Contents())
      ensures ValidEnvelope(envelope) && duration > 0 ==>
                repo.Contents() == Extend(old(repo.Contents()), envelope.jobId, envelope.statusVersion,
                    envelope.fenceToken, envelope.leaseToken, now + duration, now)
      ensures failure ==
              if !ValidEnvelope(envelope) then Some(InvalidEnvelope)
              else if duration <= 0 then Some(InvalidLease)
              else if Extendable(old(repo.Contents()), envelope.jobId, envelope.statusVersion, envelope.fenceToken,
                  envelope.leaseToken, now + duration, now) then None
              else Some(StateConflict)
    {
      hide Sound, Agrees, Keyed, Extendable, Apply;
      ghost var s := repo.Contents();
      var id, version, fence, token := envelope.jobId, envelope.statusVersion, envelope.fenceToken, envelope.leaseToken;
      if !ValidEnvelope(envelope) {
        LaterSound(s, clock, now);
        return Some(InvalidEnvelope);
      }
      if duration <= 0 {
        LaterSound(s, clock, now);
        return Some(InvalidLease);
      }
      ghost var step := JobSteps.ExtendLease(id, version, fence, token, now + duration, now);
      StepSound(s, step, clock);
      ApplyExtend(s, id, version, fence, token, now + duration, now);
      var job, extended := repo.ExtendQueueLease(id, version, fence, token, now + duration, now);
      if !extended {
        return Some(StateConflict);
      }
      ExtendAgrees(s, clock, index.entries, id, version, fence, token, now + duration, now);
      ExtendKnown(s, id, version, fence, token, now + duration, now);
      RemoveReference(Reference(id, version));
      RegisterAgrees(repo.Contents(), now, index.entries, {id}, id);
      RegisterState(job.value);
      AgreesMore(repo.jobs, index.entries, {id} - {id}, {});
      return None;
    }

    /** After a recorded change: drop the entry of the old version, register the new state. */
    method Reindex(id: string, version: int, job: Job, ghost s: Store, ghost c: Change, ghost now: Time,
        ghost good: bool)
      requires Keyed(index.entries)
      requires good ==>
                Sound(repo.Contents(), now) && Agrees(s.jobs, index.entries, {}) && Follows(s, c) && c.job == job &&
                    job.id == id
      requires good ==> repo.Contents() == Recorded(s, c, now)
      modifies index
      ensures Keyed(index.entries) && (good ==> Agrees(repo.jobs, index.entries, {}))
      ensures index.entries == RegisteredState(Removed(old(index.entries), Reference(id, version)), job)
    {
      hide Sound, Agrees, Keyed, ApplyOperationStatus, LegalEvent;
      if good {
        ChangeAgrees(s.jobs, repo.jobs, index.entries, {}, {id});
        RemoveAgrees(repo.jobs, index.entries, {} + {id}, Reference(id, version));
      }
      RemoveReference(Reference(id, version));
      if good {
        RegisterAgrees(repo.Contents(), now, index.entries, {} + {id} + {id}, id);
      }
      RegisterState(job);
      if good {
        AgreesMore(repo.jobs, index.entries, {} + {id} + {id} - {id}, {});
      }
    }

    /**
     A transition, followed by the index calls. Agreement survives exactly when the call does not
     dispatch a queued job, which would leave it without a lease; the store stays consistent either way.
     */
    method TransitionJob(id: string, version: int, fence: int, to: Status, reason: string, now: Time, ghost clock: Time)
      returns (failure: Option<Failure>)
      requires Valid(clock) && clock <= now
      modifies repo, index
      ensures Consistent(repo.Contents()) && Keyed(index.entries)
      ensures Valid(now) <==> !old(Leaseless(repo.Contents(), id, version, fence, to))
      ensures old(Leaseless(repo.Contents(), id, version, fence, to)) ==> !Agrees(repo.jobs, index.entries, {})
      ensures failure == None ==> NoneAt(index.entries, id, version)
      ensures repo.Contents() == Apply(old(repo.Contents()), Move(id, version, fence, to, reason, now))
      ensures failure == FailureOf(Transition(old(repo.Contents()), id, version, fence, to, reason, now))
      ensures TransitionLaw(old(repo.Contents()), repo.Contents(), id, version, fence, to, reason, now,
                    failure == None, ErrorOf(failure))
    {
      hide Sound, Agrees, Keyed, Transition, Follows, Recorded, Consistent, GoodChange, Leaseless, NoneAt,
           TransitionLaw;
      ghost var s, m := repo.Contents(), index.entries;
      MoveSound(s, id, version, fence, to, reason, now, clock);
      SoundConsistent(s, clock);
      MoveChange(s, id, version, fence, to, reason, now);
      MoveGood(s, id, version, fence, to, reason, now, 0);
      var job, updated, error := repo.TransitionJob(id, version, fence, to, reason, now);
      if error.Some? {
        return Some(RepositoryError(error.value));
      }
      if !updated {
        return Some(StateConflict);
      }
      Reindex(id, version, job.value, s, Transition(s, id, version, fence, to, reason, now).value.value, now,
          !Leaseless(s, id, version, fence, to));
      MovedAway(s, m, id, version, fence, to, reason, now, clock);
      return None;
    }

    method RequeueJob(id: string, version: int, fence: int, reason: string, delay: int, now: Time, ghost clock: Time)
      returns (failure: Option<Failure>)
      requires Valid(clock) && clock <= now
      modifies repo, index
      ensures Valid(now)
      ensures delay < 0 ==> repo.Contents() == old(repo.Contents())
      ensures delay >= 0 ==>
                repo.Contents() == Apply(old(repo.Contents()), Retry(id, version, fence, reason, now + delay, now))
      ensures failure == None ==> NoneAt(index.entries, id, version)
      ensures delay >= 0 ==>
                RequeueLaw(old(repo.Contents()), repo.Contents(), id, version, fence, reason, now + delay, now,
                    failure == None, ErrorOf(failure))
      ensures failure == if delay < 0 then Some(InvalidLease)
                else FailureOf(Requeue(old(repo.Contents()), id, version, fence, reason, now + delay, now))
    {
      hide Sound, Agrees, Keyed, Requeue, Follows, Recorded, Consistent, GoodChange, NoneAt, RequeueLaw;
      ghost var s, m := repo.Contents(), index.entries;
      if delay < 0 {
        LaterSound(s, clock, now);
        return Some(InvalidLease);
      }
      StepSound(s, Retry(id, version, fence, reason, now + delay, now), clock);
      SoundConsistent(s, clock);
      RetryChange(s, id, version, fence, reason, now + delay, now);
      RetryGood(s, id, version, fence, reason, now + delay, now, 0);
      var job, updated, error := repo.RequeueJob(id, version, fence, reason, now + delay, now);
      if error.Some? {
        return Some(RepositoryError(error.value));
      }
      if !updated {
        return Some(StateConflict);
      }
      Reindex(id, version, job.value, s, Requeue(s, id, version, fence, reason, now + delay, now).value.value, now,
          true);
      RetriedAway(s, m, id, version, fence, reason, now + delay, now);
      return None;
    }

    /** Cancellation by the owner removes the old entry; by an administrator it leaves the index alone. */
    method CancelJob(id: string, allowed: bool, admin: bool, now: Time, ghost clock: Time)
      returns (failure: Option<Failure>)
      requires Valid(clock) && clock <= now
      modifies repo, index
      ensures Valid(now)
      ensures repo.Contents() == Apply(old(repo.Contents()),
                Abandon(id, allowed || admin, if admin then "admin_requested" else "client_requested", now))
      ensures var r := Cancel(old(repo.Contents()), id, allowed || admin, if admin then "admin_requested"
                else "client_requested", now);
              failure ==
              if admin && id !in old(repo.jobs) then Some(JobNotFound)
              else if r.Failure? then Some(RepositoryError(r.error)) else None
      ensures admin ==> index.entries == old(index.entries)
      ensures !admin && repo.Contents() != old(repo.Contents()) ==>
                id in old(repo.jobs) && NoneFrom(index.entries, id, old(repo.jobs)[id].statusVersion)
    {
      hide Sound, Agrees, Keyed, Cancel, Follows, Recorded, Consistent, GoodChange, NoneFrom;
      ghost var s, reason := repo.Contents(), if admin then "admin_requested" else "client_requested";
      StepSound(s, Abandon(id, allowed || admin, reason, now), clock);
      SoundConsistent(s, clock);
      AbandonChange(s, id, allowed || admin, reason, now);
      AbandonGood(s, id, allowed || admin, reason, now, 0);
      var job, changed, found, error := repo.RequestCancellation(id, allowed || admin, if admin then "admin_requested"
          else "client_requested", now);
      if changed {
        ghost var c := Cancel(s, id, allowed || admin, reason, now).value.value;
        CancelLeavesQueue(s, id, allowed || admin, reason, now);
        CancelAgrees(s, c, index.entries, now);
      }
      if admin && !found {
        CancelUnknown(s, id, reason, now);
        return Some(JobNotFound);
      }
      if error.Some? {
        return Some(RepositoryError(error.value));
      }
      if changed && !admin {
        CancelStep(s, id, allowed || admin, reason, now);
        RemovedBehind(s, index.entries, id);
        assert job.value.statusVersion - 1 == s.jobs[id].statusVersion && found;
      }
      if !admin && found && job.value.statusVersion > 1 {
        CancelFound(s, id, allowed, reason, now, job.value, changed);
        RemoveAgrees(repo.jobs, index.entries, {}, Reference(id, job.value.statusVersion - 1));
        RemoveReference(Reference(id, job.value.statusVersion - 1));
        AgreesMore(repo.jobs, index.entries, {} + {id}, {});
        ghost var left := index.entries;
        RegisterState(job.value);
        assert index.entries == left;
      }
      assert !changed ==> repo.Contents() == s;
      return None;
    }

    /** Admit a job and index it; a replay re-registers the stored job. */
    method BeginJob(operation: Operation, job: Job, limits: Limits, budgetOk: bool, now: Time, ghost clock: Time)
      returns (failure: Option<Failure>)
      requires Valid(clock) && clock <= now && Fresh(operation, job, now)
      modifies repo, index
      ensures Valid(now)
      ensures failure == None ==>
                || repo.Contents() == Apply(old(repo.Contents()), Create(operation, job, now))
                || (repo.Contents() == old(repo.Contents()) &&
                    exists id :: id in old(repo.jobs) && SameIdempotencyScope(old(repo.jobs)[id], job) &&
                        old(repo.jobs)[id].fingerprint == job.fingerprint)
      ensures repo.Contents() == Called(old(repo.Contents()), Submit(operation, job, budgetOk, now), limits)
      ensures failure != None ==> repo.Contents() == old(repo.Contents())
    {
      hide Sound, Agrees, Keyed, EventRecords, Verdict, OutboxInsertable;
      ghost var s := repo.Contents();
      LaterSound(s, clock, now);
      RecordsOf(job, now);
      var records := EventRecords(job, Accepted, "", EventKindOf(job.status), now).value;
      var result := repo.CreateDurableJob(operation, job, records.event, records.outbox, limits, budgetOk);
      match result
      case Refuse(error) =>
        return Some(RepositoryError(error));
      case Replay(existing) =>
        if existing.fingerprint != job.fingerprint {
          return Some(FingerprintConflict);
        }
        ReplayStored(s, now, existing);
        RegisterAgrees(s, now, index.entries, {}, existing.id);
        RegisterState(existing);
        AgreesMore(repo.jobs, index.entries, {} - {existing.id}, {});
        return None;
      case Admit(admitted) =>
        VerdictCreatable(s, operation, job, records.outbox, limits, budgetOk);
        ghost var step := Create(operation, job, now);
        StepSound(s, step, clock);
        assert repo.Contents() == Apply(s, step);
        ChangeAgrees(s.jobs, repo.jobs, index.entries, {}, {job.id});
        RegisterAgrees(repo.Contents(), now, index.entries, {} + {job.id}, job.id);
        RegisterState(job);
        AgreesMore(repo.jobs, index.entries, {} + {job.id} - {job.id}, {});
        return None;
    }
  }

  /** The request would dispatch a queued job without a claim. */
  predicate Leaseless(s: Store, id: string, version: int, fence: int, to: Status)
  {
    to == Dispatching && Fenced(s, id, version, fence) && s.jobs[id].status == Queued
  }

  // ---- Facts the methods use ----

  /** A transition keeps the store sound exactly when it does not dispatch a queued job. */
  lemma MoveSound(s: Store, id: string, version: int, fence: int, to: Status, reason: string, now: Time, clock: Time)
    requires Sound(s, clock) && clock <= now
    ensures var t := Apply(s, Move(id, version, fence, to, reason, now));
            && Consistent(t) && (Sound(t, now) <==> !Leaseless(s, id, version, fence, to))
            && (Leaseless(s, id, version, fence, to) ==>
                   FailureOf(Transition(s, id, version, fence, to, reason, now)) == None)
  {
    hide Consistent, Timed, Leases, Owned, Transition, Fenced;
    var step := Move(id, version, fence, to, reason, now);
    StepConsistent(s, step);
    StepTimed(s, step, clock);
    StepOwned(s, step);
    MoveLeases(s, id, version, fence, to, reason, now);
    if Leaseless(s, id, version, fence, to) {
      LeaselessChange(s, id, version, fence, to, reason, now);
    }
  }

  lemma LeaselessChange(s: Store, id: string, version: int, fence: int, to: Status, reason: string, now: Time)
    requires Consistent(s) && Leaseless(s, id, version, fence, to)
    ensures FailureOf(Transition(s, id, version, fence, to, reason, now)) == None
  {
    hide Consistent, OutboxInsertable;
    TransitionFollows(s, id, to, reason, now);
    NoCollision(s, PrepareTransition(s.jobs[id], to, reason, now).value);
  }

  lemma NoIds()
    ensures Ids([]) == {}
  {
  }

  lemma ClaimNothing(jobs: map<string, Job>, now: Time, lease: Lease)
    ensures Taken(jobs, [], now, lease) && AfterClaims(jobs, Ids([]), now, lease) == jobs
  {
    assert Ids([]) == {};
  }

  lemma FirstPassTaken(s: Store, t: Store, pool: set<Job>, picks: seq<Job>, claimed: seq<Job>, now: Time, lease: Lease,
      limit: nat)
    requires Consistent(s) && ClaimedFrom(s, t, pool, picks, claimed, now, lease, limit) && lease.until > now
    ensures Taken(s.jobs, claimed, now, lease) && |claimed| <= limit
    ensures t.jobs == AfterClaims(s.jobs, Ids(claimed), now, lease) && Consistent(t)
  {
    hide Consistent, ClaimedFrom, AfterClaims, ReadyIds, ClaimedJob;
    FirstPass(s, t, pool, picks, claimed, now, lease, limit);
  }

  lemma FullPassExact(s: Store, t: Store, claimed: seq<Job>, now: Time, lease: Lease, limit: nat)
    requires Taken(s.jobs, claimed, now, lease) && |claimed| == limit
    requires t.jobs == AfterClaims(s.jobs, Ids(claimed), now, lease) && Consistent(t)
    ensures ExactClaim(s, t, claimed, now, lease, limit)
  {
    hide Consistent, AfterClaims, ReadyIds, ClaimedJob;
    OnePassExact(s, t, claimed, now, lease, limit);
  }

  lemma ExactStored(s: Store, t: Store, claimed: seq<Job>, now: Time, lease: Lease, limit: nat)
    requires ExactClaim(s, t, claimed, now, lease, limit)
    ensures Consistent(t)
    ensures forall i :: 0 <= i < |claimed| ==> claimed[i].id in t.jobs && t.jobs[claimed[i].id] == claimed[i]
  {
    hide Consistent, ReadyIds, ClaimedJob;
    forall i | 0 <= i < |claimed|
      ensures claimed[i].id in t.jobs && t.jobs[claimed[i].id] == claimed[i]
    {
      assert claimed[i] in claimed;
      assert claimed[i].id in Ids(claimed);
    }
  }

  lemma LaterSound(s: Store, clock: Time, now: Time)
    requires Sound(s, clock) && clock <= now
    ensures Sound(s, now)
  {
    hide Consistent, Leases, Owned;
  }

  lemma SoundConsistent(s: Store, clock: Time)
    requires Sound(s, clock)
    ensures Consistent(s)
  {
  }

  lemma ApplyExtend(s: Store, id: string, version: int, fence: int, token: string, until: Time, at: Time)
    ensures Apply(s, JobSteps.ExtendLease(id, version, fence, token, until, at)) ==
              Extend(s, id, version, fence, token, until, at)
  {
  }

  lemma ExtendKnown(s: Store, id: string, version: int, fence: int, token: string, until: Time, at: Time)
    requires Extendable(s, id, version, fence, token, until, at)
    ensures id in Extend(s, id, version, fence, token, until, at).jobs
  {
  }

  /** A canceled job leaves the queue, so a leftover entry is merely behind. */
  lemma CancelAgrees(s: Store, c: Change, m: Entries, now: Time)
    requires Agrees(s.jobs, m, {}) && Follows(s, c) && !Indexed(c.job.status)
    ensures Agrees(Recorded(s, c, now).jobs, m, {})
  {
    hide Agrees, ApplyOperationStatus, LegalEvent;
    var t := Recorded(s, c, now);
    ChangeAgrees(s.jobs, t.jobs, m, {}, {c.job.id});
    AgreesMore(t.jobs, m, {} + {c.job.id}, {});
  }

  lemma CancelFound(s: Store, id: string, allowed: bool, reason: string, now: Time, job: Job, changed: bool)
    requires Consistent(s) && id in s.jobs
    requires var r := Cancel(s, id, allowed, reason, now);
             r.Success? && changed == r.value.Some? && (changed ==> job == r.value.value.job) &&
                 (!changed ==> allowed && job == s.jobs[id])
    ensures job.id == id && !Indexed(job.status)
    ensures RecordedIf(s, Cancel(s, id, allowed, reason, now), now).jobs[id] == job
  {
    hide Consistent, OutboxInsertable;
    HistoryOf(s, id);
  }

  lemma CancelUnknown(s: Store, id: string, reason: string, now: Time)
    ensures id !in s.jobs ==> Cancel(s, id, true, reason, now) == Success(None)
  {
  }

  /** A cancellation that changes the job raises its version by one. */
  lemma CancelStep(s: Store, id: string, allowed: bool, reason: string, now: Time)
    requires Consistent(s)
    ensures var r := Cancel(s, id, allowed, reason, now);
            r.Success? && r.value.Some? ==>
              allowed && id in s.jobs && r.value.value.job.statusVersion == s.jobs[id].statusVersion + 1 &&
                  s.jobs[id].statusVersion >= 1
  {
    hide Consistent, OutboxInsertable, JobHistory;
    if id in s.jobs { HistoryOf(s, id); }
  }

  /** After a transition no entry of the old version is left; after a leaseless one the job is not covered. */
  lemma MovedAway(s: Store, m: Entries, id: string, version: int, fence: int, to: Status, reason: string, now: Time,
      clock: Time)
    requires Sound(s, clock) && Agrees(s.jobs, m, {})
    requires FailureOf(Transition(s, id, version, fence, to, reason, now)) == None
    ensures var c := Transition(s, id, version, fence, to, reason, now).value.value;
            var r := RegisteredState(Removed(m, Reference(id, version)), c.job);
            && NoneAt(r, id, version)
            && (Leaseless(s, id, version, fence, to) ==> !Agrees(Recorded(s, c, now).jobs, r, {}))
  {
    hide Consistent, Agrees, OutboxInsertable, JobHistory, NewEntry, ApplyOperationStatus, NoneAt, TransitionAllowed,
         Timed, Owned, Leases, LeaseShape;
    HistoryOf(s, id);
    var c := Transition(s, id, version, fence, to, reason, now).value.value;
    ReindexedNoneAt(m, id, version, c.job);
    if Leaseless(s, id, version, fence, to) {
      QueuedLeaseless(s, id, to, reason, now);
      LeaselessUncovered(s, m, id, version, c.job, Recorded(s, c, now));
    }
  }

  lemma RetriedAway(s: Store, m: Entries, id: string, version: int, fence: int, reason: string, next: Time, now: Time)
    requires Consistent(s) && FailureOf(Requeue(s, id, version, fence, reason, next, now)) == None
    ensures var c := Requeue(s, id, version, fence, reason, next, now).value.value;
            NoneAt(RegisteredState(Removed(m, Reference(id, version)), c.job), id, version)
  {
    hide Consistent, OutboxInsertable, JobHistory, NewEntry, NoneAt, TransitionAllowed;
    HistoryOf(s, id);
    ReindexedNoneAt(m, id, version, Requeue(s, id, version, fence, reason, next, now).value.value.job);
  }

  lemma RecordsOf(job: Job, now: Time)
    requires job.status == Queued && job.statusVersion == 1
    ensures EventRecords(job, Accepted, "", EventKindOf(job.status), now).Success?
  {
  }

  lemma ReplayStored(s: Store, clock: Time, job: Job)
    requires Sound(s, clock) && job in s.jobs.Values
    ensures job.id in s.jobs && s.jobs[job.id] == job
  {
    hide Consistent;
    var id :| id in s.jobs && s.jobs[id] == job;
    HistoryOf(s, id);
  }

  lemma VerdictCreatable(s: Store, operation: Operation, job: Job, row: OutboxRow, limits: Limits, budgetOk: bool)
    requires Verdict(s, operation, job, row, limits, budgetOk) == None
    ensures Creatable(s, operation, job)
  {
  }
}
