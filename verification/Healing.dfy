/** Stale hints: what a claim may take from them, and how they are put right. */
module Healing {
  import opened Base
  import opened JobModel
  import opened FairQueue
  import opened JobStore
  import opened JobSteps
  import opened JobRuns
  import opened Repository
  import opened ReadyIndex
  import opened Agreement
  import opened Claiming
  import opened Promptness

  // ---- Hints and the rows they name ----

  function References(hints: seq<Entry>): seq<Reference>
  {
    seq(|hints|, i requires 0 <= i < |hints| => ReferenceOf(hints[i]))
  }

  /** Some hint names the job at this version. */
  ghost predicate Hinted(hints: seq<Entry>, id: string, version: int)
  {
    exists h :: h in hints && h.jobId == id && h.statusVersion == version
  }

  lemma {:induction false} WantedNamed(references: seq<Reference>, id: string)
    requires WantedVersion(references, id) != 0
    ensures exists r :: r in references && r.jobId == id && r.statusVersion == WantedVersion(references, id)
  {
    var last := references[|references| - 1];
    assert last in references;
    if !(last.jobId == id && last.jobId != "" && last.statusVersion > 0) {
      WantedNamed(references[..|references| - 1], id);
    }
  }

  lemma RowHinted(s: Store, hints: seq<Entry>, now: Time, job: Job)
    requires Consistent(s) && job in ReferencedRows(s.jobs.Values, References(hints), now)
    ensures Hinted(hints, job.id, job.statusVersion)
  {
    hide Consistent, ReadyForClaim;
    var id :| id in s.jobs && s.jobs[id] == job;
    HistoryOf(s, id);
    WantedNamed(References(hints), job.id);
    var r :| r in References(hints) && r.jobId == job.id && r.statusVersion == job.statusVersion;
    var i :| 0 <= i < |hints| && References(hints)[i] == r;
    assert hints[i] in hints;
  }

  /** The claimable rows some hint names at their version. */
  ghost function NamedRows(rows: set<Job>, hints: seq<Entry>, now: Time): set<Job>
  {
    set j | j in rows && Overdue(j, now) && Hinted(hints, j.id, j.statusVersion)
  }

  lemma {:induction false} WantedHint(hints: seq<Entry>, i: nat)
    requires i < |hints| && hints[i].jobId != "" && hints[i].statusVersion > 0
    requires forall a, b :: 0 <= a < b < |hints| ==> hints[a].jobId != hints[b].jobId
    ensures WantedVersion(References(hints), hints[i].jobId) == hints[i].statusVersion
  {
    var n := |hints| - 1;
    assert References(hints)[..n] == References(hints[..n]);
    if i < n {
      WantedHint(hints[..n], i);
    }
  }

  /** Hints about pairwise different jobs refer to exactly the claimable rows they name. */
  lemma HintedRows(s: Store, hints: seq<Entry>, now: Time)
    requires Consistent(s) && forall a, b :: 0 <= a < b < |hints| ==> hints[a].jobId != hints[b].jobId
    ensures ReferencedRows(s.jobs.Values, References(hints), now) == NamedRows(s.jobs.Values, hints, now)
  {
    hide Consistent, ReadyForClaim, Overdue, Hinted;
    forall j
      ensures j in ReferencedRows(s.jobs.Values, References(hints), now) <==> j in NamedRows(s.jobs.Values, hints, now)
    {
      ReadyExactly(j, now);
      if j in ReferencedRows(s.jobs.Values, References(hints), now) {
        RowHinted(s, hints, now, j);
      } else if j in NamedRows(s.jobs.Values, hints, now) {
        NamedReferenced(s, hints, now, j);
      }
    }
  }

  lemma NamedReferenced(s: Store, hints: seq<Entry>, now: Time, j: Job)
    requires Consistent(s) && forall a, b :: 0 <= a < b < |hints| ==> hints[a].jobId != hints[b].jobId
    requires j in s.jobs.Values && ReadyForClaim(j, now) && Hinted(hints, j.id, j.statusVersion)
    ensures j in ReferencedRows(s.jobs.Values, References(hints), now)
  {
    hide Consistent, ReadyForClaim;
    var id :| id in s.jobs && s.jobs[id] == j;
    HistoryOf(s, id);
    var h :| h in hints && h.jobId == j.id && h.statusVersion == j.statusVersion;
    var i :| 0 <= i < |hints| && hints[i] == h;
    WantedHint(hints, i);
  }

  /** Without hints no row is referenced. */
  lemma NoRows(s: Store, now: Time)
    requires Consistent(s)
    ensures |ReferencedRows(s.jobs.Values, References([]), now)| == 0
  {
    hide Consistent;
    forall j | j in ReferencedRows(s.jobs.Values, References([]), now)
      ensures false
    {
      var id :| id in s.jobs && s.jobs[id] == j;
      HistoryOf(s, id);
    }
    assert ReferencedRows(s.jobs.Values, References([]), now) == {};
  }

  /** A claim by references takes only hinted jobs, and as many of the referenced rows as the limit allows. */
  lemma ClaimedHinted(s: Store, t: Store, hints: seq<Entry>, picks: seq<Job>, claimed: seq<Job>, now: Time,
      lease: Lease, limit: nat)
    requires Consistent(s)
    requires ClaimedFrom(s, t, ReferencedRows(s.jobs.Values, References(hints), now), picks, claimed, now, lease, limit)
    ensures |claimed| == Min(limit, |ReferencedRows(s.jobs.Values, References(hints), now)|)
    ensures forall j :: j in claimed ==> Hinted(hints, j.id, j.statusVersion - 1)
  {
    hide Consistent, StatsOf, ClaimAll, Rank, Hinted, ReferencedRows, AfterClaims, ReadyForClaim;
    forall j | j in claimed
      ensures Hinted(hints, j.id, j.statusVersion - 1)
    {
      var i :| 0 <= i < |claimed| && claimed[i] == j;
      RowHinted(s, hints, now, picks[i]);
      ClaimAdvances(picks[i], now, lease, 0);
      ClaimKeepsId(picks[i], now, lease);
    }
  }

  lemma TakenStored(jobs: map<string, Job>, after: map<string, Job>, claimed: seq<Job>, now: Time, lease: Lease)
    requires Taken(jobs, claimed, now, lease) && after == AfterClaims(jobs, Ids(claimed), now, lease)
    ensures forall i :: 0 <= i < |claimed| ==> claimed[i].id in after && after[claimed[i].id] == claimed[i]
  {
    hide ClaimedJob, ReadyIds;
    forall i | 0 <= i < |claimed|
      ensures claimed[i].id in after && after[claimed[i].id] == claimed[i]
    {
      assert claimed[i] in claimed;
    }
  }

  // ---- Healing ----

  /** The entry tells the truth about a claimable job. */
  predicate Describes(e: Entry, job: Job)
  {
    Indexed(job.status) && job.statusVersion == e.statusVersion && ReadyAt(job) == e.readyAt
  }

  /** If the index still holds this hint, the hint describes a stored job. */
  ghost predicate Healed(jobs: map<string, Job>, m: Entries, hint: Entry)
  {
    hint.jobId in m && m[hint.jobId] == hint ==> hint.jobId in jobs && Describes(hint, jobs[hint.jobId])
  }

  ghost predicate AllHealed(jobs: map<string, Job>, m: Entries, hints: seq<Entry>)
  {
    forall h :: h in hints ==> Healed(jobs, m, h)
  }

  /** Every entry was there before or describes its job. */
  ghost predicate Improves(jobs: map<string, Job>, was: Entries, m: Entries)
  {
    forall id :: id in m ==> (id in was && was[id] == m[id]) || (id in jobs && Describes(m[id], jobs[id]))
  }

  lemma StillHealed(jobs: map<string, Job>, was: Entries, m: Entries, hints: seq<Entry>)
    requires AllHealed(jobs, was, hints) && Improves(jobs, was, m)
    ensures AllHealed(jobs, m, hints)
  {
    hide Describes;
    forall h | h in hints
      ensures Healed(jobs, m, h)
    {
      assert Healed(jobs, was, h);
    }
  }

  lemma RemovalImproves(jobs: map<string, Job>, was: Entries, hint: Entry)
    requires Keyed(was)
    ensures var m := Removed(was, ReferenceOf(hint)); Improves(jobs, was, m) && Healed(jobs, m, hint)
  {
    hide Describes;
  }

  lemma RegistrationImproves(s: Store, was: Entries, m: Entries, id: string, hint: Entry)
    requires Consistent(s) && id in s.jobs && Improves(s.jobs, was, m) && Healed(s.jobs, m, hint)
    ensures var r := RegisteredState(m, s.jobs[id]); Improves(s.jobs, was, r) && Healed(s.jobs, r, hint)
  {
    hide Consistent, ValidEntry;
    HistoryOf(s, id);
    hide JobHistory;
    if NewEntry(s.jobs[id]).Some? {
      ValidOf(s.jobs[id]);
    }
  }

  lemma GoodHint(jobs: map<string, Job>, m: Entries, hint: Entry)
    requires hint.jobId in jobs && Describes(hint, jobs[hint.jobId])
    ensures Healed(jobs, m, hint) && Improves(jobs, m, m)
  {
  }

  /** The two indexes differ only at these jobs. */
  ghost predicate SameOutside(was: Entries, m: Entries, ids: set<string>)
  {
    forall id :: id !in ids ==> (id in m <==> id in was) && (id in m ==> m[id] == was[id])
  }

  lemma SameAtStart(m: Entries, ids: set<string>)
    ensures SameOutside(m, m, ids)
  {
  }

  lemma SameAfterRegister(was: Entries, m: Entries, ids: set<string>, job: Job)
    requires SameOutside(was, m, ids) && job.id in ids
    ensures SameOutside(was, RegisteredState(m, job), ids)
  {
    hide ValidEntry;
    if NewEntry(job).Some? {
      ValidOf(job);
    }
  }

  /** Healing survives the fallback pass: jobs it claimed are registered anew, all others stay as they were. */
  lemma HealedAtEnd(middle: map<string, Job>, jobs: map<string, Job>, was: Entries, m: Entries, hints: seq<Entry>,
      ids: set<string>, pending: set<string>)
    requires AllHealed(middle, was, hints) && SameOutside(was, m, ids)
    requires forall id :: id in middle && id !in ids ==> id in jobs && jobs[id] == middle[id]
    requires forall id :: id in ids ==> id in jobs && jobs[id].status == Dispatching
    requires Agrees(jobs, m, pending) && pending !! ids
    ensures AllHealed(jobs, m, hints)
  {
    forall h | h in hints
      ensures Healed(jobs, m, h)
    {
      assert Healed(middle, was, h);
    }
  }

  lemma ClaimedDispatched(s: Store, t: Store, claimed: seq<Job>, now: Time, lease: Lease, limit: nat)
    requires ExactClaim(s, t, claimed, now, lease, limit)
    ensures forall id :: id in Ids(claimed) ==> id in t.jobs && t.jobs[id].status == Dispatching
  {
    hide Consistent, ReadyIds;
  }

  lemma AfterClaimsFrame(jobs: map<string, Job>, ids: set<string>, more: set<string>, now: Time, lease: Lease)
    requires ids <= more
    ensures forall id :: id in jobs && id !in more ==>
              id in AfterClaims(jobs, ids, now, lease) && AfterClaims(jobs, ids, now, lease)[id] == jobs[id]
  {
    hide ClaimedJob;
  }

  // ---- Entries of versions left behind ----

  /** No entry of the job at this version or later. */
  ghost predicate NoneFrom(m: Entries, id: string, version: int) { id in m ==> m[id].statusVersion < version }

  /** No entry of the job at exactly this version. */
  ghost predicate NoneAt(m: Entries, id: string, version: int) { id in m ==> m[id].statusVersion != version }

  lemma RemovedBehind(s: Store, m: Entries, id: string)
    requires Consistent(s) && id in s.jobs && Agrees(s.jobs, m, {})
    ensures NoneFrom(Removed(m, Reference(id, s.jobs[id].statusVersion)), id, s.jobs[id].statusVersion)
  {
    hide Consistent;
    HistoryOf(s, id);
    hide JobHistory;
    EntryVersion(s.jobs[id]);
    hide EntryOf;
  }

  lemma ReindexedNoneAt(m: Entries, id: string, version: int, job: Job)
    requires id != "" && version > 0 && job.id == id && job.statusVersion != version
    ensures NoneAt(RegisteredState(Removed(m, Reference(id, version)), job), id, version)
  {
    hide ValidEntry;
    if NewEntry(job).Some? {
      ValidOf(job);
    }
  }

  lemma QueuedLeaseless(s: Store, id: string, to: Status, reason: string, now: Time)
    requires Leases(s) && id in s.jobs && s.jobs[id].status == Queued && to == Dispatching
    ensures PrepareTransition(s.jobs[id], to, reason, now).Success? ==>
              var job := PrepareTransition(s.jobs[id], to, reason, now).value.job;
              job.status == Dispatching && NewEntry(job).None? && job.id == s.jobs[id].id &&
                  job.statusVersion == s.jobs[id].statusVersion + 1
  {
    assert LeaseShape(s.jobs[id]);
  }

  /** A job dispatched without a lease cannot be indexed, so its index no longer covers it. */
  lemma LeaselessUncovered(s: Store, m: Entries, id: string, version: int, job: Job, t: Store)
    requires Consistent(s) && id in s.jobs && s.jobs[id].statusVersion == version && Agrees(s.jobs, m, {})
    requires job.id == id && job.status == Dispatching && NewEntry(job).None? && job.statusVersion == version + 1
    requires id in t.jobs && t.jobs[id] == job
    ensures !Agrees(t.jobs, RegisteredState(Removed(m, Reference(id, version)), job), {})
  {
    hide Consistent;
    EntryVersion(s.jobs[id]);
    hide EntryOf, NewEntry;
    var r := RegisteredState(Removed(m, Reference(id, version)), job);
    assert id in m ==> Fits(m[id], s.jobs[id]);
    assert id in r ==> r[id].statusVersion <= version;
  }
}
