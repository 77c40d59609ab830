/** The claim envelope a worker receives, and the check of that envelope against the stored job. */
module Envelopes {
  import opened Base
  import opened JobModel
  import opened JobStore
  import opened JobSteps
  import opened JobRuns

  /** A delivery identifier is a digest of the claim it names; equal digests mean equal claims. */
  datatype DeliveryId = Custom(text: string) | Digest(jobId: string, operationId: string, version: int, fence: int)

  const BLANK := Custom("")
  const SCHEMA_VERSION := 1

  datatype Envelope = Envelope(
    schemaVersion: int, deliveryId: DeliveryId, jobId: string, operationId: string,
    statusVersion: int, fenceToken: int, leaseToken: string)

  function DeliveryIdOf(jobId: string, operationId: string, version: int, fence: int): DeliveryId
  {
    if jobId == "" || operationId == "" || version <= 0 || fence <= 0 then BLANK
    else Digest(jobId, operationId, version, fence)
  }

  predicate ValidEnvelope(e: Envelope)
  {
    && e.schemaVersion == SCHEMA_VERSION && e.deliveryId != BLANK && e.jobId != "" && e.operationId != ""
    && e.statusVersion > 0 && e.fenceToken > 0 && e.leaseToken != ""
    && e.deliveryId == DeliveryIdOf(e.jobId, e.operationId, e.statusVersion, e.fenceToken)
  }

  function EnvelopeOf(job: Job): Envelope
  {
    Envelope(SCHEMA_VERSION, DeliveryIdOf(job.id, job.operationId, job.statusVersion, job.fenceToken),
             job.id, job.operationId, job.statusVersion, job.fenceToken, job.leaseToken)
  }

  function NewEnvelope(job: Job): Option<Envelope>
  {
    if ValidEnvelope(EnvelopeOf(job)) then Some(EnvelopeOf(job)) else None
  }

  predicate LiveClaim(job: Job, now: Time)
  {
    job.status == Dispatching && job.leaseUntil.Some? && job.leaseUntil.value > now
  }

  /** The worker's check: the envelope names the claim the stored job is under, and that claim is alive. */
  predicate Matches(job: Job, e: Envelope, now: Time)
  {
    && job.operationId == e.operationId && job.status == Dispatching
    && job.statusVersion == e.statusVersion && job.fenceToken == e.fenceToken
    && job.leaseToken == e.leaseToken
    && job.leaseUntil.Some? && job.leaseUntil.value > now
  }

  /** Among valid envelopes for a job, exactly the one built from its live claim passes. */
  lemma MatchesExactly(job: Job, e: Envelope, now: Time)
    requires ValidEnvelope(e) && e.jobId == job.id
    ensures Matches(job, e, now) <==> NewEnvelope(job) == Some(e) && LiveClaim(job, now)
  {
  }

  /** At any instant at most one valid envelope per job passes the check. */
  lemma OneMatch(s: Store, e: Envelope, f: Envelope, now: Time)
    requires ValidEnvelope(e) && ValidEnvelope(f) && e.jobId == f.jobId && e.jobId in s.jobs
    requires s.jobs[e.jobId].id == e.jobId
    requires Matches(s.jobs[e.jobId], e, now) && Matches(s.jobs[e.jobId], f, now)
    ensures e == f
  {
    MatchesExactly(s.jobs[e.jobId], e, now);
    MatchesExactly(s.jobs[e.jobId], f, now);
  }

  /** The envelope is not from the future of its job, and the check rejects it now. */
  predicate Rejected(s: Store, e: Envelope, now: Time)
  {
    && e.jobId in s.jobs && e.statusVersion <= s.jobs[e.jobId].statusVersion
    && !Matches(s.jobs[e.jobId], e, now)
  }

  lemma AdvancesRejects(a: Job, b: Job, e: Envelope, clock: Time, later: Time)
    requires Advances(a, b, clock) && clock <= later
    requires e.statusVersion <= a.statusVersion && !Matches(a, e, clock)
    ensures !Matches(b, e, later)
  {
  }

  /**
   An envelope that could have been built from a claim and is rejected once is rejected forever:
   a later version never matches, and within its version a lease that ran out stays out.
   */
  lemma RejectedForever(w: World, steps: seq<Step>, w': World, e: Envelope)
    requires Consistent(w.store) && Timed(w.store, w.clock) && Execution(w, steps, w') && Rejected(w.store, e, w.clock)
    ensures Rejected(w'.store, e, w'.clock)
  {
    hide Consistent, Execution, Timed, Matches;
    Reachable(w, steps, w');
    RunAdvances(w, steps, w', e.jobId);
    AdvancesRejects(w.store.jobs[e.jobId], w'.store.jobs[e.jobId], e, w.clock, w'.clock);
  }
}
