/**
 Store and ready index together. Index calls follow each store change; the index may lag behind
 but never runs ahead, and when no call is lost it covers every claimable job.
 */
module Agreement {
  import opened Base
  import opened JobModel
  import opened JobStore
  import opened JobSteps
  import opened JobRuns
  import opened Repository
  import opened ReadyIndex
  import opened Promptness

  predicate Indexed(status: Status) { status == Queued || status == Dispatching }

  /** Register the current state of a job, if it belongs in the index. */
  function RegisteredState(m: Entries, job: Job): Entries
  {
    if Indexed(job.status) && NewEntry(job).Some? then Registered(m, NewEntry(job).value) else m
  }

  /** An entry is behind its job, or describes it exactly. */
  predicate Fits(entry: Entry, job: Job)
  {
    entry.statusVersion < job.statusVersion || entry == EntryOf(job)
  }

  /** Every entry names an existing job and fits it. */
  ghost predicate Bounded(jobs: map<string, Job>, m: Entries)
  {
    forall id :: id in m ==> id in jobs && Fits(m[id], jobs[id])
  }

  /** Every claimable job, except those still to be registered, has an entry at its version. */
  ghost predicate Covers(jobs: map<string, Job>, m: Entries, pending: set<string>)
  {
    forall id :: id in jobs && Indexed(jobs[id].status) && id !in pending ==>
        id in m && m[id].statusVersion == jobs[id].statusVersion
  }

  ghost predicate Agrees(jobs: map<string, Job>, m: Entries, pending: set<string>)
  {
    Bounded(jobs, m) && Covers(jobs, m, pending)
  }

  /** Facts about the stored jobs that make them indexable. */
  ghost predicate Sound(s: Store, clock: Time)
  {
    Consistent(s) && Timed(s, clock) && Leases(s) && Owned(s)
  }

  lemma SoundIndexable(s: Store, clock: Time, id: string)
    requires Sound(s, clock) && id in s.jobs && Indexed(s.jobs[id].status)
    ensures NewEntry(s.jobs[id]) == Some(EntryOf(s.jobs[id])) && s.jobs[id].id == id
  {
    hide Consistent;
    HistoryOf(s, id);
  }

  /** The entry carries the job's own columns. */
  predicate DescribesJob(e: Entry, job: Job)
  {
    && e.jobId == job.id && e.status == job.status && e.statusVersion == job.statusVersion
    && e.fenceToken == job.fenceToken && e.scope == job.scope && e.priority == job.priority
    && e.createdAt == job.createdAt
  }

  /** The entry of a covered job turns up as a candidate exactly from the time on at which the job can be claimed. */
  lemma IndexedWhenDue(s: Store, clock: Time, m: Entries, pending: set<string>, id: string)
    requires Sound(s, clock) && Agrees(s.jobs, m, pending) && Keyed(m)
    requires id in s.jobs && id !in pending && s.jobs[id].status in {Queued, Dispatching}
    ensures id in m && DescribesJob(m[id], s.jobs[id])
    ensures forall at :: m[id] in ReadyEntries(m, at) <==> Overdue(s.jobs[id], at)
  {
    hide Consistent, Timed, Owned, ValidEntry;
    assert LeaseShape(s.jobs[id]);
  }

  lemma StepSound(s: Store, step: Step, clock: Time)
    requires Sound(s, clock) && Enabled(s, step) && ClaimsOnly(step) && clock <= step.at
    ensures Sound(Apply(s, step), step.at)
  {
    hide Consistent, Timed, Leases, Owned, Apply, Enabled, ClaimsOnly;
    StepConsistent(s, step);
    StepTimed(s, step, clock);
    StepLeases(s, step);
    StepOwned(s, step);
  }

  /** Registering a stored job covers it and disturbs no other entry. */
  lemma RegisterAgrees(s: Store, clock: Time, m: Entries, pending: set<string>, id: string)
    requires Sound(s, clock) && id in s.jobs && Agrees(s.jobs, m, pending)
    ensures Agrees(s.jobs, RegisteredState(m, s.jobs[id]), pending - {id})
  {
    hide Sound, ValidEntry;
    if Indexed(s.jobs[id].status) {
      SoundIndexable(s, clock, id);
      ValidOf(s.jobs[id]);
    }
  }

  lemma ValidOf(job: Job)
    requires NewEntry(job).Some?
    ensures ValidEntry(NewEntry(job).value) && NewEntry(job).value == EntryOf(job)
  {
  }

  lemma RemoveAgrees(jobs: map<string, Job>, m: Entries, pending: set<string>, reference: Reference)
    requires Agrees(jobs, m, pending)
    ensures Agrees(jobs, Removed(m, reference), pending + {reference.jobId})
  {
  }

  /** A store change that raises the version of every job it touches keeps the entries bounded. */
  lemma ChangeAgrees(jobs: map<string, Job>, after: map<string, Job>, m: Entries, pending: set<string>,
      touched: set<string>)
    requires Agrees(jobs, m, pending)
    requires jobs.Keys <= after.Keys
    requires forall id :: id in jobs ==>
               if id in touched then after[id].statusVersion > jobs[id].statusVersion else after[id] == jobs[id]
    requires forall id :: id in after && id !in jobs ==> id in touched
    ensures Agrees(after, m, pending + touched)
  {
    hide EntryOf;
    forall id | id in m
      ensures id in after && Fits(m[id], after[id])
    {
      assert Fits(m[id], jobs[id]);
      EntryVersion(jobs[id]);
    }
  }

  lemma EntryVersion(job: Job)
    ensures EntryOf(job).statusVersion == job.statusVersion && EntryOf(job).jobId == job.id
  {
  }

  /** Extending a lease keeps the version, so the entry of that version must go before the new one comes. */
  lemma ExtendAgrees(s: Store, clock: Time, m: Entries, id: string, version: int, fence: int, token: string,
      until: Time, at: Time)
    requires Sound(s, clock) && Agrees(s.jobs, m, {})
    requires Extendable(s, id, version, fence, token, until, at)
    ensures Agrees(Extend(s, id, version, fence, token, until, at).jobs, Removed(m, Reference(id, version)), {id})
  {
    hide Consistent, ValidEntry;
    HistoryOf(s, id);
    EntryVersion(s.jobs[id]);
    hide EntryOf;
  }

  // ---- Lost and late index calls ----

  /** Store, index and every job value the store ever held. */
  datatype Lagging = Lagging(store: Store, entries: Entries, seen: set<Job>)

  datatype LagStep = StoreStep(step: Step) | LateRegister(job: Job) | LateRemove(reference: Reference)

  ghost predicate LagEnabled(w: Lagging, l: LagStep)
  {
    match l
    case StoreStep(step) => Enabled(w.store, step)
    case LateRegister(job) => job in w.seen
    case LateRemove(reference) => true
  }

  ghost function LagApply(w: Lagging, l: LagStep): Lagging
  {
    match l
    case StoreStep(step) => var t := Apply(w.store, step); Lagging(t, w.entries, w.seen + t.jobs.Values)
    case LateRegister(job) => w.(entries := RegisteredState(w.entries, job))
    case LateRemove(reference) => w.(entries := Removed(w.entries, reference))
  }

  ghost predicate LagRun(w: Lagging, steps: seq<LagStep>, w': Lagging)
    decreases |steps|
  {
    if steps == [] then w' == w
    else LagEnabled(w, steps[0]) && LagRun(LagApply(w, steps[0]), steps[1..], w')
  }

  ghost predicate NotAhead(jobs: map<string, Job>, id: string, version: int)
  {
    id in jobs && version <= jobs[id].statusVersion
  }

  ghost predicate LagInvariant(w: Lagging)
  {
    && Consistent(w.store)
    && (forall id :: id in w.entries ==> NotAhead(w.store.jobs, id, w.entries[id].statusVersion))
    && (forall j :: j in w.seen ==> NotAhead(w.store.jobs, j.id, j.statusVersion))
  }

  lemma LagStepKeeps(w: Lagging, l: LagStep)
    requires LagInvariant(w) && LagEnabled(w, l)
    ensures LagInvariant(LagApply(w, l))
  {
    hide Consistent, Apply, Enabled;
    var w' := LagApply(w, l);
    match l
    case StoreStep(step) =>
      StepConsistent(w.store, step);
      forall id, v | NotAhead(w.store.jobs, id, v)
        ensures NotAhead(w'.store.jobs, id, v)
      {
        StepAdvances(w.store, step, 0, id);
      }
      forall j | j in w'.store.jobs.Values
        ensures NotAhead(w'.store.jobs, j.id, j.statusVersion)
      {
        var id :| id in w'.store.jobs && w'.store.jobs[id] == j;
        HistoryOf(w'.store, id);
      }
    case LateRegister(job) =>
      if Indexed(job.status) && NewEntry(job).Some? {
        ValidOf(job);
      }
    case LateRemove(reference) =>
  }

  /**
   However index calls are lost, delayed or reordered, no entry is ever ahead of its job: the
   version a hint carries is at most the stored one.
   */
  lemma {:induction false} NeverAhead(w: Lagging, steps: seq<LagStep>, w': Lagging)
    requires LagInvariant(w) && LagRun(w, steps, w')
    ensures LagInvariant(w')
    decreases |steps|
  {
    hide LagInvariant, LagApply, LagEnabled;
    if steps != [] {
      LagStepKeeps(w, steps[0]);
      NeverAhead(LagApply(w, steps[0]), steps[1..], w');
    }
  }
}
