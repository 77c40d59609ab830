/** The rebuildable index of claimable jobs, in its single-process form. */
module ReadyIndex {
  import opened Base
  import opened JobModel
  import opened Repository
  import opened Sorting
  import RoundRobin

  datatype Entry = Entry(
    jobId: string, status: Status, statusVersion: int, fenceToken: int,
    scope: Scope, priority: int, readyAt: Time, createdAt: Time)

  type Entries = map<string, Entry>

  /** `Oversize` is an outcome of the shared index only. */
  datatype RegisterOutcome = Stored | Superseded | Conflict | Invalid | Oversize

  function ReferenceOf(entry: Entry): Reference { Reference(entry.jobId, entry.statusVersion) }

  /** A dispatched job becomes claimable when its lease runs out, any other at its eligibility time. */
  function ReadyAt(job: Job): Time
  {
    if job.status == Dispatching && job.leaseUntil.Some? then job.leaseUntil.value else job.nextEligibleAt
  }

  predicate ValidEntry(entry: Entry)
  {
    && entry.jobId != "" && entry.statusVersion > 0 && entry.scope.applicationId != "" && entry.scope.principalId != ""
    && entry.readyAt != ZERO_TIME && entry.createdAt != ZERO_TIME
    && (entry.status == Queued || entry.status == Dispatching)
  }

  function EntryOf(job: Job): Entry
  {
    Entry(job.id, job.status, job.statusVersion, job.fenceToken, job.scope, job.priority, ReadyAt(job), job.createdAt)
  }

  /** The entry of a job, unless the job cannot be indexed. */
  function NewEntry(job: Job): Option<Entry>
  {
    if job.status == Dispatching && job.leaseUntil.None? then None
    else if ValidEntry(EntryOf(job)) then Some(EntryOf(job)) else None
  }

  function RegisterVerdict(entries: Entries, entry: Entry): RegisterOutcome
  {
    if !ValidEntry(entry) then Invalid
    else if entry.jobId in entries && entries[entry.jobId].statusVersion > entry.statusVersion then Superseded
    else if entry.jobId in entries && entries[entry.jobId].statusVersion == entry.statusVersion &&
        entries[entry.jobId] != entry
    then Conflict
    else Stored
  }

  function Registered(entries: Entries, entry: Entry): Entries
  {
    if RegisterVerdict(entries, entry) == Stored then entries[entry.jobId := entry] else entries
  }

  predicate UsableReference(reference: Reference) { reference.jobId != "" && reference.statusVersion > 0 }

  function Removed(entries: Entries, reference: Reference): Entries
  {
    if UsableReference(reference) && reference.jobId in entries &&
        entries[reference.jobId].statusVersion == reference.statusVersion
    then entries - {reference.jobId} else entries
  }

  ghost predicate Keyed(entries: Entries)
  {
    forall id :: id in entries ==> entries[id].jobId == id && ValidEntry(entries[id])
  }

  // ---- Candidate order ----

  predicate EntryLess(a: Entry, b: Entry)
  {
    if a.readyAt != b.readyAt then a.readyAt < b.readyAt
    else if a.priority != b.priority then a.priority > b.priority
    else if a.createdAt != b.createdAt then a.createdAt < b.createdAt
    else StringLess(a.jobId, b.jobId)
  }

  ghost predicate DistinctJobs(entries: set<Entry>)
  {
    forall a, b :: a in entries && b in entries && a.jobId == b.jobId ==> a == b
  }

  lemma EntryLessTransitive(a: Entry, b: Entry, c: Entry)
    requires EntryLess(a, b) && EntryLess(b, c)
    ensures EntryLess(a, c)
  {
    if StringLess(a.jobId, b.jobId) && StringLess(b.jobId, c.jobId) {
      StringLessTransitive(a.jobId, b.jobId, c.jobId);
    }
  }

  lemma EntryOrder(entries: set<Entry>)
    requires DistinctJobs(entries)
    ensures StrictOrder(EntryLess, entries)
  {
    forall a, b | a in entries && b in entries
      ensures a != b ==> EntryLess(a, b) != EntryLess(b, a)
      ensures !EntryLess(a, a)
    {
      StringLessTotal(a.jobId, b.jobId);
      StringLessAsymmetric(a.jobId, b.jobId);
      StringLessAsymmetric(a.jobId, a.jobId);
    }
    forall a, b, c | a in entries && b in entries && c in entries && EntryLess(a, b) && EntryLess(b, c)
      ensures EntryLess(a, c)
    {
      EntryLessTransitive(a, b, c);
    }
  }

  function GroupKey(group: seq<Entry>): string
  {
    if group == [] then "" else PrincipalKey(group[0].scope)
  }

  function GroupStart(group: seq<Entry>): Time
  {
    if group == [] then 0 else group[0].readyAt
  }

  /** Principals are served in the order of their earliest entry, then by key. */
  predicate GroupLess(a: seq<Entry>, b: seq<Entry>)
  {
    if GroupStart(a) != GroupStart(b) then GroupStart(a) < GroupStart(b) else StringLess(GroupKey(a), GroupKey(b))
  }

  ghost predicate DistinctKeys(groups: set<seq<Entry>>)
  {
    forall a, b :: a in groups && b in groups && GroupKey(a) == GroupKey(b) ==> a == b
  }

  lemma GroupOrder(groups: set<seq<Entry>>)
    requires DistinctKeys(groups)
    ensures StrictOrder(GroupLess, groups)
  {
    hide GroupKey, GroupStart;
    forall a, b | a in groups && b in groups
      ensures a != b ==> GroupLess(a, b) != GroupLess(b, a)
      ensures !GroupLess(a, a)
    {
      StringLessTotal(GroupKey(a), GroupKey(b));
      StringLessAsymmetric(GroupKey(a), GroupKey(b));
      StringLessAsymmetric(GroupKey(a), GroupKey(a));
    }
    forall a, b, c | a in groups && b in groups && c in groups && GroupLess(a, b) && GroupLess(b, c)
      ensures GroupLess(a, c)
    {
      if StringLess(GroupKey(a), GroupKey(b)) && StringLess(GroupKey(b), GroupKey(c)) {
        StringLessTransitive(GroupKey(a), GroupKey(b), GroupKey(c));
      }
    }
  }

  ghost function OwnedBy(ready: set<Entry>, key: string): set<Entry>
  {
    set e | e in ready && PrincipalKey(e.scope) == key
  }

  /** One principal's sorted list of ready entries. */
  ghost predicate IsGroup(group: seq<Entry>, ready: set<Entry>)
  {
    group != [] && Sorted(group, EntryLess) && Members(group) == OwnedBy(ready, GroupKey(group))
  }

  /** The ready entries split by principal, every list sorted and the lists in serving order. */
  ghost predicate Grouping(groups: seq<seq<Entry>>, ready: set<Entry>)
  {
    && (forall g :: g in groups ==> IsGroup(g, ready))
    && DistinctKeys(Members(groups)) && Sorted(groups, GroupLess)
    && (forall e :: e in ready ==> exists g :: g in groups && GroupKey(g) == PrincipalKey(e.scope))
  }

  lemma GroupsCovered(g: seq<seq<Entry>>, h: seq<seq<Entry>>, ready: set<Entry>)
    requires DistinctJobs(ready) && Grouping(g, ready) && Grouping(h, ready)
    ensures Members(g) <= Members(h)
  {
    hide EntryLess, GroupLess, PrincipalKey;
    forall a: seq<Entry> | a in g
      ensures a in h
    {
      assert IsGroup(a, ready);
      assert a[0] in Members(a);
      assert a[0] in ready;
      var b :| b in h && GroupKey(b) == PrincipalKey(a[0].scope);
      assert IsGroup(b, ready) && GroupKey(a) == GroupKey(b);
      EntryOrder(ready);
      SubOrder(EntryLess, ready, Members(a));
      SortedUnique(a, b, EntryLess);
    }
  }

  /** The grouping depends on the ready entries alone, not on the order a map yields them. */
  lemma GroupingUnique(g: seq<seq<Entry>>, h: seq<seq<Entry>>, ready: set<Entry>)
    requires DistinctJobs(ready) && Grouping(g, ready) && Grouping(h, ready)
    ensures g == h
  {
    hide IsGroup, GroupLess, GroupKey;
    GroupsCovered(g, h, ready);
    GroupsCovered(h, g, ready);
    GroupOrder(Members(g));
    SortedUnique(g, h, GroupLess);
  }

  ghost function Covered(groups: seq<seq<Entry>>, n: nat): set<Entry>
    requires n <= |groups|
  {
    if n == 0 then {} else Covered(groups, n - 1) + Members(groups[n - 1])
  }

  lemma {:induction false} CoveredMember(groups: seq<seq<Entry>>, n: nat, e: Entry)
    requires n <= |groups|
    ensures e in Covered(groups, n) <==> exists i :: 0 <= i < n && e in groups[i]
  {
    if n > 0 {
      CoveredMember(groups, n - 1, e);
    }
  }

  lemma {:induction false} GroupedTotal(groups: seq<seq<Entry>>, ready: set<Entry>, n: nat)
    requires DistinctJobs(ready) && Grouping(groups, ready) && n <= |groups|
    ensures |Covered(groups, n)| == RoundRobin.Total(groups, n)
    ensures forall e :: e in Covered(groups, n) ==> e in ready
  {
    hide EntryLess, GroupLess, PrincipalKey, StrictOrder;
    if n > 0 {
      var g := groups[n - 1];
      GroupedTotal(groups, ready, n - 1);
      assert IsGroup(g, ready);
      EntryOrder(ready);
      SubOrder(EntryLess, ready, Members(g));
      SortedDistinct(g, EntryLess, Members(g));
      forall e | e in Covered(groups, n - 1)
        ensures e !in Members(g)
      {
        CoveredMember(groups, n - 1, e);
        var i :| 0 <= i < n - 1 && e in groups[i];
        DifferentGroups(groups, ready, i, n - 1);
        assert IsGroup(groups[i], ready) && e in Members(groups[i]);
      }
    }
  }

  lemma DifferentGroups(groups: seq<seq<Entry>>, ready: set<Entry>, i: nat, j: nat)
    requires Grouping(groups, ready) && i < j < |groups|
    ensures GroupKey(groups[i]) != GroupKey(groups[j])
  {
    hide IsGroup, GroupKey;
    assert groups[i] in Members(groups) && groups[j] in Members(groups);
    GroupOrder(Members(groups));
    assert GroupLess(groups[i], groups[j]);
  }

  /** Together the groups hold every ready entry once. */
  lemma GroupingTotal(groups: seq<seq<Entry>>, ready: set<Entry>)
    requires DistinctJobs(ready) && Grouping(groups, ready)
    ensures RoundRobin.Total(groups, |groups|) == |ready|
  {
    hide EntryLess, GroupLess, PrincipalKey;
    GroupedTotal(groups, ready, |groups|);
    forall e | e in ready
      ensures e in Covered(groups, |groups|)
    {
      var g :| g in groups && GroupKey(g) == PrincipalKey(e.scope);
      assert IsGroup(g, ready) && e in Members(g);
      CoveredMember(groups, |groups|, e);
    }
    assert Covered(groups, |groups|) == ready;
  }

  lemma GroupApart(g: seq<Entry>, ready: set<Entry>, p: nat, q: nat)
    requires DistinctJobs(ready) && IsGroup(g, ready) && p < q < |g|
    ensures g[p] != g[q]
  {
    hide EntryLess, OwnedBy;
    OwnedWithin(ready, GroupKey(g));
    EntryOrder(ready);
    SortedDistinct(g, EntryLess, ready);
  }

  lemma GroupMember(groups: seq<seq<Entry>>, ready: set<Entry>, i: nat, p: nat)
    requires Grouping(groups, ready) && i < |groups| && p < |groups[i]|
    ensures groups[i][p] in ready && PrincipalKey(groups[i][p].scope) == GroupKey(groups[i])
    ensures IsGroup(groups[i], ready)
  {
    hide PrincipalKey, EntryLess, GroupLess, DistinctKeys;
    assert groups[i] in groups;
    assert IsGroup(groups[i], ready);
    assert groups[i][p] in Members(groups[i]);
  }

  /** The groups of a grouping have no entry in common and none twice. */
  lemma GroupingApart(groups: seq<seq<Entry>>, ready: set<Entry>)
    requires DistinctJobs(ready) && Grouping(groups, ready)
    ensures RoundRobin.Apart(groups)
  {
    hide Grouping, IsGroup, PrincipalKey, GroupKey, DistinctJobs;
    forall i, p, j, q | 0 <= i < |groups| && 0 <= p < |groups[i]| && 0 <= j < |groups| && 0 <= q < |groups[j]| &&
        groups[i][p] == groups[j][q]
      ensures i == j && p == q
    {
      GroupMember(groups, ready, i, p);
      GroupMember(groups, ready, j, q);
      if i < j { DifferentGroups(groups, ready, i, j); }
      if j < i { DifferentGroups(groups, ready, j, i); }
      if i == j && p < q { GroupApart(groups[i], ready, p, q); }
      if i == j && q < p { GroupApart(groups[i], ready, q, p); }
    }
  }

  /** Ready entries of pairwise different jobs. */
  ghost predicate DistinctReady(out: seq<Entry>, ready: set<Entry>)
  {
    && (forall e :: e in out ==> e in ready)
    && (forall i, j :: 0 <= i < j < |out| ==> out[i].jobId != out[j].jobId)
  }

  lemma DrawnReady(groups: seq<seq<Entry>>, ready: set<Entry>, r: nat, k: nat)
    requires DistinctJobs(ready) && Grouping(groups, ready) && k <= |groups|
    ensures DistinctReady(RoundRobin.Upto(groups, r, k), ready)
  {
    hide Grouping, RoundRobin.Apart;
    var out := RoundRobin.Upto(groups, r, k);
    forall e | e in out
      ensures e in ready
    {
      RoundRobin.UptoContents(groups, r, k, e);
      var i: nat, p: nat :| RoundRobin.TakenAt(groups, i, p, r, k, e);
      GroupMember(groups, ready, i, p);
    }
    GroupingApart(groups, ready);
    RoundRobin.UptoDistinct(groups, r, k);
  }

  // ---- The order of the candidates, said in columns ----

  /** Ready earlier; or as early with a higher priority; or else created earlier; or else with the smaller id. */
  predicate EntryFirst(a: Entry, b: Entry)
  {
    && a.readyAt <= b.readyAt
    && (a.readyAt == b.readyAt ==> a.priority >= b.priority)
    && (a.readyAt == b.readyAt && a.priority == b.priority ==> a.createdAt <= b.createdAt)
    && (a.readyAt == b.readyAt && a.priority == b.priority && a.createdAt == b.createdAt ==>
          StringLess(a.jobId, b.jobId))
  }

  predicate SamePrincipal(a: Entry, b: Entry) { PrincipalKey(a.scope) == PrincipalKey(b.scope) }

  /** The entry is the first of its principal in the sequence. */
  ghost predicate Leads(out: seq<Entry>, a: nat)
  {
    a < |out| && forall c :: 0 <= c < a ==> !SamePrincipal(out[c], out[a])
  }

  /**
   How a candidate list is ordered: within a principal by the columns, nothing of a principal before
   what it has more urgent, and principals by their earliest entry, then by key.
   */
  ghost predicate ServingOrder(out: seq<Entry>, ready: set<Entry>)
  {
    && (forall a, b :: 0 <= a < b < |out| && SamePrincipal(out[a], out[b]) ==> EntryFirst(out[a], out[b]))
    && (forall a, e :: 0 <= a < |out| && e in ready && e !in out && SamePrincipal(out[a], e) ==> EntryFirst(out[a], e))
    && (forall a, b :: 0 <= a < b < |out| && Leads(out, a) && Leads(out, b) ==> LeadsFirst(out[a], out[b]))
    && (forall a, e :: 0 <= a < |out| && Leads(out, a) && e in ready && (forall x :: x in out ==> !SamePrincipal(x, e))
          ==> out[a].readyAt <= e.readyAt)
  }

  predicate LeadsFirst(a: Entry, b: Entry)
  {
    a.readyAt < b.readyAt ||
        (a.readyAt == b.readyAt && StringLess(PrincipalKey(a.scope), PrincipalKey(b.scope)))
  }

  /** Two places of one grouping with entries of the same principal lie in the same group. */
  lemma SameGroup(groups: seq<seq<Entry>>, ready: set<Entry>, i: nat, p: nat, j: nat, q: nat)
    requires Grouping(groups, ready) && i < |groups| && p < |groups[i]| && j < |groups| && q < |groups[j]|
    ensures SamePrincipal(groups[i][p], groups[j][q]) <==> i == j
    ensures i == j && p < q ==> EntryFirst(groups[i][p], groups[j][q])
  {
    hide Grouping, GroupKey, PrincipalKey;
    GroupMember(groups, ready, i, p);
    GroupMember(groups, ready, j, q);
    if i < j { DifferentGroups(groups, ready, i, j); }
    if j < i { DifferentGroups(groups, ready, j, i); }
    if i == j && p < q {
      assert EntryLess(groups[i][p], groups[i][q]);
    }
  }

  /** The group and the place of a ready entry. */
  lemma PlaceOf(groups: seq<seq<Entry>>, ready: set<Entry>, e: Entry) returns (i: nat, p: nat)
    requires Grouping(groups, ready) && e in ready
    ensures i < |groups| && p < |groups[i]| && groups[i][p] == e
  {
    hide PrincipalKey, EntryLess, GroupLess, DistinctKeys;
    var g :| g in groups && GroupKey(g) == PrincipalKey(e.scope);
    assert IsGroup(g, ready) && e in Members(g);
    i :| 0 <= i < |groups| && groups[i] == g;
    p :| 0 <= p < |g| && g[p] == e;
  }

  lemma OrderWithin(groups: seq<seq<Entry>>, ready: set<Entry>, r: nat, k: nat, a: nat, b: nat)
    requires Grouping(groups, ready) && k <= |groups| && a < b < |RoundRobin.Upto(groups, r, k)|
    ensures var out := RoundRobin.Upto(groups, r, k); SamePrincipal(out[a], out[b]) ==> EntryFirst(out[a], out[b])
  {
    hide Grouping, EntryFirst, SamePrincipal, RoundRobin.Upto;
    var i, p, j, q := RoundRobin.UptoOrdered(groups, r, k, a, b);
    SameGroup(groups, ready, i, p, j, q);
  }

  lemma NotSkipped(groups: seq<seq<Entry>>, ready: set<Entry>, r: nat, k: nat, a: nat, e: Entry)
    requires Grouping(groups, ready) && k <= |groups| && a < |RoundRobin.Upto(groups, r, k)|
    requires e in ready && e !in RoundRobin.Upto(groups, r, k)
    ensures var out := RoundRobin.Upto(groups, r, k); SamePrincipal(out[a], e) ==> EntryFirst(out[a], e)
  {
    hide Grouping, EntryFirst, SamePrincipal, RoundRobin.Upto;
    var out := RoundRobin.Upto(groups, r, k);
    var i, p := RoundRobin.UptoPlace(groups, r, k, a);
    var j, q := PlaceOf(groups, ready, e);
    SameGroup(groups, ready, i, p, j, q);
    RoundRobin.UptoContents(groups, r, k, e);
    if i == j {
      assert !RoundRobin.TakenAt(groups, j, q, r, k, e);
      assert p < q;
    }
  }

  /** The first entry of a principal is the head of its group. */
  lemma LeadIsHead(groups: seq<seq<Entry>>, ready: set<Entry>, r: nat, k: nat, a: nat, i: nat, p: nat)
    requires DistinctJobs(ready) && Grouping(groups, ready) && k <= |groups|
    requires RoundRobin.DrawnAt(RoundRobin.Upto(groups, r, k), groups, a, i, p) && (p < r || (p == r && i < k))
    requires Leads(RoundRobin.Upto(groups, r, k), a)
    ensures p == 0
  {
    hide Grouping, EntryFirst, SamePrincipal, RoundRobin.Upto, RoundRobin.Apart;
    var out := RoundRobin.Upto(groups, r, k);
    if p > 0 {
      var head := groups[i][0];
      RoundRobin.UptoContents(groups, r, k, head);
      assert RoundRobin.TakenAt(groups, i, 0, r, k, head);
      var c: nat :| c < |out| && out[c] == head;
      SameGroup(groups, ready, i, 0, i, p);
      GroupingApart(groups, ready);
      if a < c {
        var x, y, z, w := RoundRobin.UptoOrdered(groups, r, k, a, c);
        SamePlace(groups, i, p, x, y);
        SamePlace(groups, i, 0, z, w);
      } else {
        SamePlace(groups, i, 0, i, p);
      }
    }
  }

  lemma SamePlace(groups: seq<seq<Entry>>, i: nat, p: nat, j: nat, q: nat)
    requires RoundRobin.Apart(groups) && i < |groups| && p < |groups[i]| && j < |groups| && q < |groups[j]|
    ensures groups[i][p] == groups[j][q] ==> i == j && p == q
  {
  }

  lemma HeadsInOrder(groups: seq<seq<Entry>>, ready: set<Entry>, i: nat, j: nat)
    requires Grouping(groups, ready) && i < j < |groups|
    ensures groups[i] != [] && groups[j] != [] && LeadsFirst(groups[i][0], groups[j][0])
  {
    hide PrincipalKey, EntryLess, DistinctKeys;
    assert groups[i] in groups && groups[j] in groups;
    assert IsGroup(groups[i], ready) && IsGroup(groups[j], ready);
    assert GroupLess(groups[i], groups[j]);
  }

  lemma LeadersInOrder(groups: seq<seq<Entry>>, ready: set<Entry>, r: nat, k: nat, a: nat, b: nat)
    requires DistinctJobs(ready) && Grouping(groups, ready) && k <= |groups|
    requires a < b < |RoundRobin.Upto(groups, r, k)|
    requires Leads(RoundRobin.Upto(groups, r, k), a) && Leads(RoundRobin.Upto(groups, r, k), b)
    ensures var out := RoundRobin.Upto(groups, r, k); LeadsFirst(out[a], out[b])
  {
    hide Grouping, Leads, LeadsFirst, RoundRobin.Upto, RoundRobin.Apart, DistinctJobs;
    var i, p, j, q := RoundRobin.UptoOrdered(groups, r, k, a, b);
    GroupingApart(groups, ready);
    var x, y := RoundRobin.UptoPlace(groups, r, k, a);
    SamePlace(groups, i, p, x, y);
    var z, w := RoundRobin.UptoPlace(groups, r, k, b);
    SamePlace(groups, j, q, z, w);
    LeadIsHead(groups, ready, r, k, a, i, p);
    LeadIsHead(groups, ready, r, k, b, j, q);
    HeadsInOrder(groups, ready, i, j);
  }

  /** A principal that gets nothing has nothing ready before any leader. */
  lemma NoPrincipalPassedOver(groups: seq<seq<Entry>>, ready: set<Entry>, r: nat, k: nat, a: nat, e: Entry)
    requires DistinctJobs(ready) && Grouping(groups, ready) && k <= |groups| && e in ready
    requires Leads(RoundRobin.Upto(groups, r, k), a)
    requires forall x :: x in RoundRobin.Upto(groups, r, k) ==> !SamePrincipal(x, e)
    ensures RoundRobin.Upto(groups, r, k)[a].readyAt <= e.readyAt
  {
    hide Grouping, SamePrincipal, RoundRobin.Upto, RoundRobin.Apart, DistinctJobs, PrincipalKey;
    var out := RoundRobin.Upto(groups, r, k);
    var i, p := RoundRobin.UptoPlace(groups, r, k, a);
    LeadIsHead(groups, ready, r, k, a, i, p);
    var j, q := PlaceOf(groups, ready, e);
    SameGroup(groups, ready, j, 0, j, q);
    RoundRobin.UptoContents(groups, r, k, groups[j][0]);
    assert !RoundRobin.TakenAt(groups, j, 0, r, k, groups[j][0]);
    HeadsInOrder(groups, ready, i, j);
  }

  lemma DrawnInOrder(groups: seq<seq<Entry>>, ready: set<Entry>, r: nat, k: nat)
    requires DistinctJobs(ready) && Grouping(groups, ready) && k <= |groups|
    ensures ServingOrder(RoundRobin.Upto(groups, r, k), ready)
  {
    hide Grouping, DistinctJobs, Leads, LeadsFirst, EntryFirst, SamePrincipal, RoundRobin.Upto;
    var out := RoundRobin.Upto(groups, r, k);
    forall a, b | 0 <= a < b < |out|
      ensures SamePrincipal(out[a], out[b]) ==> EntryFirst(out[a], out[b])
      ensures Leads(out, a) && Leads(out, b) ==> LeadsFirst(out[a], out[b])
    {
      OrderWithin(groups, ready, r, k, a, b);
      if Leads(out, a) && Leads(out, b) {
        LeadersInOrder(groups, ready, r, k, a, b);
      }
    }
    forall a, e | 0 <= a < |out| && e in ready
      ensures e !in out && SamePrincipal(out[a], e) ==> EntryFirst(out[a], e)
      ensures Leads(out, a) && (forall x :: x in out ==> !SamePrincipal(x, e)) ==> out[a].readyAt <= e.readyAt
    {
      if e !in out {
        NotSkipped(groups, ready, r, k, a, e);
      }
      if Leads(out, a) && (forall x :: x in out ==> !SamePrincipal(x, e)) {
        NoPrincipalPassedOver(groups, ready, r, k, a, e);
      }
    }
  }

  ghost function ReadyEntries(entries: Entries, at: Time): set<Entry>
  {
    set e | e in entries.Values && e.readyAt <= at
  }

  lemma ReadyDistinct(entries: Entries, at: Time)
    requires Keyed(entries)
    ensures DistinctJobs(ReadyEntries(entries, at))
  {
    hide ValidEntry;
  }

  // ---- Counting by scope ----

  datatype ScopeQuery = WholeIndex | ByApplication(applicationId: string) | ByPrincipal(scope: Scope)

  predicate ValidQuery(query: ScopeQuery)
  {
    match query
    case WholeIndex => true
    case ByApplication(id) => id != ""
    case ByPrincipal(scope) => scope.applicationId != "" && scope.principalId != ""
  }

  predicate InScope(entry: Entry, query: ScopeQuery)
  {
    match query
    case WholeIndex => true
    case ByApplication(id) => entry.scope.applicationId == id
    case ByPrincipal(scope) => PrincipalKey(entry.scope) == PrincipalKey(scope)
  }

  ghost function ScopeMembers(entries: Entries, query: ScopeQuery): set<string>
  {
    set id | id in entries && InScope(entries[id], query)
  }

  /** Members already visited by a scan that has `rest` still to visit. */
  ghost function ScopeSeen(entries: Entries, query: ScopeQuery, rest: set<string>): nat
  {
    |ScopeMembers(entries, query) - rest|
  }

  lemma ScopeSeenStep(entries: Entries, query: ScopeQuery, rest: set<string>, id: string)
    requires id in rest && id in entries
    ensures ScopeSeen(entries, query, rest - {id}) ==
              ScopeSeen(entries, query, rest) + (if InScope(entries[id], query) then 1 else 0)
  {
    hide InScope;
    var all := ScopeMembers(entries, query);
    assert all - (rest - {id}) == (all - rest) + (if InScope(entries[id], query) then {id} else {});
  }

  lemma ScopeSeenEnds(entries: Entries, query: ScopeQuery)
    ensures ScopeSeen(entries, query, entries.Keys) == 0
    ensures ScopeSeen(entries, query, {}) == |ScopeMembers(entries, query)|
  {
    assert ScopeMembers(entries, query) - entries.Keys == {};
    assert ScopeMembers(entries, query) - {} == ScopeMembers(entries, query);
  }

  class MemoryReadyIndex {
    var entries: Entries

    constructor ()
      ensures entries == map[]
    {
      entries := map[];
    }

    /** Keep the newest version of a job; a different entry at the same version is a conflict. */
    method Register(entry: Entry) returns (outcome: RegisterOutcome)
      modifies this
      ensures outcome == RegisterVerdict(old(entries), entry)
      ensures entries == Registered(old(entries), entry)
      ensures outcome == Invalid <==>
                entry.jobId == "" || entry.statusVersion <= 0 || entry.status !in {Queued, Dispatching} ||
                entry.scope.applicationId == "" || entry.scope.principalId == "" ||
                entry.readyAt == ZERO_TIME || entry.createdAt == ZERO_TIME
      ensures outcome != Invalid ==>
                var id := entry.jobId;
                && (id !in old(entries) || old(entries)[id].statusVersion < entry.statusVersion ==> outcome == Stored)
                && (id in old(entries) && old(entries)[id].statusVersion > entry.statusVersion ==>
                      outcome == Superseded)
                && (id in old(entries) && old(entries)[id].statusVersion == entry.statusVersion ==>
                      outcome == if old(entries)[id] == entry then Stored else Conflict)
      ensures entries == if outcome == Stored then old(entries)[entry.jobId := entry] else old(entries)
    {
      if !ValidEntry(entry) {
        return Invalid;
      }
      if entry.jobId in entries {
        var current := entries[entry.jobId];
        if current.statusVersion > entry.statusVersion {
          return Superseded;
        }
        if current.statusVersion == entry.statusVersion && current != entry {
          return Conflict;
        }
      }
      entries := entries[entry.jobId := entry];
      return Stored;
    }

    method Remove(reference: Reference) returns (ok: bool)
      modifies this
      ensures ok == UsableReference(reference)
      ensures entries == Removed(old(entries), reference)
      ensures ok <==> reference.jobId != "" && reference.statusVersion > 0
      ensures forall id :: id in old(entries) ==>
                (id !in entries <==>
                   ok && id == reference.jobId && old(entries)[id].statusVersion == reference.statusVersion)
      ensures forall id :: id in entries ==> id in old(entries) && entries[id] == old(entries)[id]
    {
      if reference.jobId == "" || reference.statusVersion <= 0 {
        return false;
      }
      if reference.jobId in entries && entries[reference.jobId].statusVersion == reference.statusVersion {
        entries := entries - {reference.jobId};
      }
      return true;
    }

    method Count(query: ScopeQuery) returns (count: Option<nat>)
      ensures count == if ValidQuery(query) then Some(|ScopeMembers(entries, query)|) else None
    {
      hide ScopeSeen, InScope, ScopeMembers;
      if !ValidQuery(query) {
        return None;
      }
      var n, rest := 0, entries.Keys;
      ScopeSeenEnds(entries, query);
      while rest != {}
        invariant rest <= entries.Keys && n == ScopeSeen(entries, query, rest)
        decreases |rest|
      {
        var id :| id in rest;
        ScopeSeenStep(entries, query, rest, id);
        rest := rest - {id};
        if InScope(entries[id], query) {
          n := n + 1;
        }
      }
      return Some(n);
    }

    /**
     Ready entries, one per principal and round. The result is the first `limit` entries of the
     interleaving of the one grouping the ready entries have.
     */
    method Candidates(at: Time, limit: int)
      returns (out: seq<Entry>, ghost groups: seq<seq<Entry>>, ghost round: nat, ghost position: nat)
      requires Keyed(entries)
      ensures at == ZERO_TIME || limit <= 0 ==> out == []
      ensures at != ZERO_TIME && limit > 0 ==>
                && Grouping(groups, ReadyEntries(entries, at))
                && position <= |groups| && out == RoundRobin.Upto(groups, round, position)
                && |out| == Min(limit, |ReadyEntries(entries, at)|)
                && |out| <= |RoundRobin.All(groups)| && out == RoundRobin.All(groups)[..|out|]
                && DistinctReady(out, ReadyEntries(entries, at)) && RoundRobin.FairDraw(out, groups, round, position)
                && ServingOrder(out, ReadyEntries(entries, at))
    {
      hide Grouping, Keyed, ServingOrder, RoundRobin.FairDraw, RoundRobin.Apart, DistinctReady;
      out, groups, round, position := [], [], 0, 0;
      if at == ZERO_TIME || limit <= 0 {
        return;
      }
      ReadyDistinct(entries, at);
      var lists := GroupReady(entries, at);
      groups := lists;
      GroupingTotal(groups, ReadyEntries(entries, at));
      GroupingApart(groups, ReadyEntries(entries, at));
      out, round, position := RoundRobin.Interleave(lists, limit);
      DrawnReady(groups, ReadyEntries(entries, at), round, position);
      DrawnInOrder(groups, ReadyEntries(entries, at), round, position);
    }
  }

  method ListReady(entries: Entries, at: Time) returns (ready: seq<Entry>)
    requires Keyed(entries)
    ensures NoDuplicates(ready) && Members(ready) == ReadyEntries(entries, at)
  {
    hide ValidEntry;
    ready := [];
    var rest := entries.Keys;
    while rest != {}
      invariant rest <= entries.Keys && NoDuplicates(ready)
      invariant forall e :: e in ready ==> e in ReadyEntries(entries, at) && e.jobId !in rest
      invariant forall id :: id in entries && id !in rest && entries[id].readyAt <= at ==> entries[id] in ready
      decreases |rest|
    {
      var id :| id in rest;
      rest := rest - {id};
      if entries[id].readyAt <= at {
        ready := ready + [entries[id]];
      }
    }
  }

  lemma OwnedStep(seen: set<Entry>, e: Entry, key: string)
    ensures OwnedBy(seen + {e}, key) == OwnedBy(seen, key) + (if PrincipalKey(e.scope) == key then {e} else {})
  {
    hide PrincipalKey;
  }

  /** Split the ready entries by principal key. */
  method SplitReady(ready: seq<Entry>) returns (split: map<string, seq<Entry>>)
    requires NoDuplicates(ready)
    ensures forall k :: k in split ==>
              split[k] != [] && NoDuplicates(split[k]) && Members(split[k]) == OwnedBy(Members(ready), k)
    ensures forall e :: e in Members(ready) ==> PrincipalKey(e.scope) in split
  {
    hide PrincipalKey, OwnedBy;
    split := map[];
    for i := 0 to |ready|
      invariant forall k :: k in split ==>
                split[k] != [] && NoDuplicates(split[k]) && Members(split[k]) == OwnedBy(Members(ready[..i]), k)
      invariant forall e :: e in Members(ready[..i]) ==> PrincipalKey(e.scope) in split
    {
      var e := ready[i];
      ghost var seen := Members(ready[..i]);
      assert ready[..i + 1] == ready[..i] + [e];
      assert Members(ready[..i + 1]) == seen + {e};
      forall k
        ensures OwnedBy(seen + {e}, k) == OwnedBy(seen, k) + (if PrincipalKey(e.scope) == k then {e} else {})
      {
        OwnedStep(seen, e, k);
      }
      var key := PrincipalKey(e.scope);
      var before := if key in split then split[key] else [];
      OwnedNone(seen, split.Keys, key);
      assert Members(before) == OwnedBy(seen, key);
      OwnedWithin(seen, key);
      assert e !in Members(before);
      assert Members(before + [e]) == Members(before) + {e};
      split := split[key := before + [e]];
    }
    assert ready[..|ready|] == ready;
  }

  lemma OwnedNone(seen: set<Entry>, keys: set<string>, key: string)
    requires forall e :: e in seen ==> PrincipalKey(e.scope) in keys
    ensures key !in keys ==> OwnedBy(seen, key) == {}
  {
    hide PrincipalKey;
  }

  method GroupReady(entries: Entries, at: Time) returns (groups: seq<seq<Entry>>)
    requires Keyed(entries)
    ensures Grouping(groups, ReadyEntries(entries, at))
  {
    hide PrincipalKey, EntryLess, GroupLess, Keyed, ReadyEntries, OwnedBy;
    var list := ListReady(entries, at);
    var split := SplitReady(list);
    ghost var ready := ReadyEntries(entries, at);
    ReadyDistinct(entries, at);
    EntryOrder(ready);
    var lists: seq<seq<Entry>> := [];
    var rest := split.Keys;
    while rest != {}
      invariant rest <= split.Keys
      invariant forall g :: g in lists ==> IsGroup(g, ready) && GroupKey(g) in split && GroupKey(g) !in rest
      invariant forall i, j :: 0 <= i < j < |lists| ==> GroupKey(lists[i]) != GroupKey(lists[j])
      invariant forall k :: k in split && k !in rest ==> exists g :: g in lists && GroupKey(g) == k
      decreases |rest|
    {
      var key :| key in rest;
      OwnedWithin(ready, key);
      SubOrder(EntryLess, ready, Members(split[key]));
      var sorted := Sort(split[key], EntryLess);
      assert sorted[0] in Members(sorted);
      OwnedKey(ready, key, sorted[0]);
      assert GroupKey(sorted) == key;
      lists := lists + [sorted];
      rest := rest - {key};
    }
    forall a, b | a in Members(lists) && b in Members(lists) && GroupKey(a) == GroupKey(b)
      ensures a == b
    {
    }
    GroupOrder(Members(lists));
    groups := Sort(lists, GroupLess);
    forall g | g in groups
      ensures IsGroup(g, ready)
    {
      assert g in Members(groups);
    }
    forall e | e in ready
      ensures exists g :: g in groups && GroupKey(g) == PrincipalKey(e.scope)
    {
      var g :| g in lists && GroupKey(g) == PrincipalKey(e.scope);
      assert g in Members(groups);
    }
  }

  lemma OwnedWithin(ready: set<Entry>, key: string)
    ensures OwnedBy(ready, key) <= ready
  {
  }

  lemma OwnedKey(ready: set<Entry>, key: string, e: Entry)
    requires e in OwnedBy(ready, key)
    ensures PrincipalKey(e.scope) == key
  {
  }
}
