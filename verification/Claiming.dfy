/** The two passes of one scheduler claim: hinted jobs first, then any ready job. */
module Claiming {
  import opened Base
  import opened JobModel
  import opened FairQueue
  import opened JobStore
  import opened JobSteps
  import opened Repository
  import opened Promptness
  import FairQuery

  ghost function ReadyIds(jobs: map<string, Job>, now: Time): set<string>
  {
    set id | id in jobs && ReadyForClaim(jobs[id], now)
  }

  /**
   Exactly min(limit, ready) distinct jobs were claimed, all of them ready, each with version and
   fence raised by one, and no other job changed.
   */
  ghost predicate ExactClaim(s: Store, t: Store, claimed: seq<Job>, now: Time, lease: Lease, limit: nat)
  {
    && DistinctSeq(claimed) && |claimed| == Min(limit, |ReadyIds(s.jobs, now)|)
    && Ids(claimed) <= ReadyIds(s.jobs, now)
    && (forall i :: 0 <= i < |claimed| ==>
          claimed[i].id in s.jobs && claimed[i] == ClaimedJob(s.jobs[claimed[i].id], now, lease))
    && t.jobs == AfterClaims(s.jobs, Ids(claimed), now, lease)
    && Consistent(t)
  }

  lemma {:induction false} ImageCard(keys: set<string>, jobs: map<string, Job>, rows: set<Job>)
    requires keys <= jobs.Keys && (forall id :: id in keys ==> jobs[id].id == id)
    requires rows == set id | id in keys :: jobs[id]
    ensures |rows| == |keys|
    decreases |keys|
  {
    if keys == {} {
      assert rows == {};
    } else {
      var id :| id in keys;
      var rest := set i | i in keys - {id} :: jobs[i];
      ImageCard(keys - {id}, jobs, rest);
      assert rows == rest + {jobs[id]};
      assert jobs[id] !in rest;
    }
  }

  lemma ReadyCard(jobs: map<string, Job>, now: Time)
    requires forall id :: id in jobs ==> jobs[id].id == id
    ensures |FairQuery.ReadyRows(jobs.Values, now)| == |ReadyIds(jobs, now)|
  {
    hide ReadyForClaim;
    var rows := FairQuery.ReadyRows(jobs.Values, now);
    assert rows == set id | id in ReadyIds(jobs, now) :: jobs[id];
    ImageCard(ReadyIds(jobs, now), jobs, rows);
  }

  lemma ClaimedIds(picks: seq<Job>, now: Time, lease: Lease)
    ensures |Claimed(picks, now, lease)| == |picks|
    ensures forall i :: 0 <= i < |picks| ==> Claimed(picks, now, lease)[i].id == picks[i].id
    ensures Ids(Claimed(picks, now, lease)) == Ids(picks)
    ensures DistinctSeq(picks) ==> DistinctSeq(Claimed(picks, now, lease))
  {
    hide ClaimedJob;
    var claimed := Claimed(picks, now, lease);
    forall i | 0 <= i < |picks|
      ensures claimed[i].id == picks[i].id
    {
      ClaimKeepsId(picks[i], now, lease);
    }
    forall x | x in Ids(claimed)
      ensures x in Ids(picks)
    {
      var i :| 0 <= i < |claimed| && claimed[i].id == x;
      assert picks[i] in picks;
    }
    forall x | x in Ids(picks)
      ensures x in Ids(claimed)
    {
      var i :| 0 <= i < |picks| && picks[i].id == x;
      assert claimed[i] in claimed;
    }
  }

  lemma {:induction false} DistinctCard(picks: seq<Job>)
    requires DistinctSeq(picks)
    ensures |Ids(picks)| == |picks|
  {
    if picks == [] {
      assert Ids(picks) == {};
    } else {
      var init, last := picks[..|picks| - 1], picks[|picks| - 1];
      DistinctCard(init);
      assert picks == init + [last];
      assert Ids(picks) == Ids(init) + {last.id};
    }
  }

  /** A claimed job is not ready again at the time of its claim. */
  lemma ReadyAfter(jobs: map<string, Job>, ids: set<string>, now: Time, lease: Lease)
    requires lease.until > now
    ensures ReadyIds(AfterClaims(jobs, ids, now, lease), now) == ReadyIds(jobs, now) - ids
  {
    hide ReadyForClaim, ClaimedJob;
    var after := AfterClaims(jobs, ids, now, lease);
    forall id | id in jobs
      ensures id in ReadyIds(after, now) <==> id in ReadyIds(jobs, now) - ids
    {
      ClaimKeepsId(jobs[id], now, lease);
    }
  }

  lemma PicksReady(s: Store, picks: seq<Job>, now: Time)
    requires Claimable(s, picks, now)
    ensures Ids(picks) <= ReadyIds(s.jobs, now)
  {
    hide ReadyForClaim;
  }

  /** The first pass: a claim from any pool of ready jobs. */
  lemma FirstPass(s: Store, t: Store, pool: set<Job>, picks: seq<Job>, claimed: seq<Job>, now: Time, lease: Lease,
      limit: nat)
    requires Consistent(s) && ClaimedFrom(s, t, pool, picks, claimed, now, lease, limit) && lease.until > now
    ensures DistinctSeq(claimed) && |claimed| == |picks| <= limit && Ids(claimed) == Ids(picks) <= ReadyIds(s.jobs, now)
    ensures forall i :: 0 <= i < |claimed| ==>
              claimed[i].id in s.jobs && claimed[i] == ClaimedJob(s.jobs[claimed[i].id], now, lease)
    ensures t.jobs == AfterClaims(s.jobs, Ids(claimed), now, lease) && Consistent(t)
    ensures ReadyIds(t.jobs, now) == ReadyIds(s.jobs, now) - Ids(claimed)
  {
    hide Consistent, Rank, StatsOf, ReadyForClaim, ClaimAll, ClaimedJob;
    ClaimedIds(picks, now, lease);
    PicksReady(s, picks, now);
    ReadyAfter(s.jobs, Ids(picks), now, lease);
  }

  /** When the first pass already filled the limit. */
  lemma OnePassExact(s: Store, t: Store, claimed: seq<Job>, now: Time, lease: Lease, limit: nat)
    requires DistinctSeq(claimed) && |claimed| == limit && Ids(claimed) <= ReadyIds(s.jobs, now)
    requires forall i :: 0 <= i < |claimed| ==>
              claimed[i].id in s.jobs && claimed[i] == ClaimedJob(s.jobs[claimed[i].id], now, lease)
    requires t.jobs == AfterClaims(s.jobs, Ids(claimed), now, lease) && Consistent(t)
    ensures ExactClaim(s, t, claimed, now, lease, limit)
  {
    hide ReadyIds, ClaimedJob, Consistent;
    DistinctCard(claimed);
    SubsetCard(Ids(claimed), ReadyIds(s.jobs, now));
  }

  /** Jobs claimed from s: distinct, ready, and with exactly the claim's changes. */
  ghost predicate Taken(jobs: map<string, Job>, claimed: seq<Job>, now: Time, lease: Lease)
  {
    && DistinctSeq(claimed) && Ids(claimed) <= ReadyIds(jobs, now)
    && forall i :: 0 <= i < |claimed| ==>
         claimed[i].id in jobs && claimed[i] == ClaimedJob(jobs[claimed[i].id], now, lease)
  }

  lemma TakenConcat(jobs: map<string, Job>, first: seq<Job>, second: seq<Job>, now: Time, lease: Lease)
    requires lease.until > now && Taken(jobs, first, now, lease)
    requires Taken(AfterClaims(jobs, Ids(first), now, lease), second, now, lease)
    ensures Taken(jobs, first + second, now, lease)
    ensures AfterClaims(AfterClaims(jobs, Ids(first), now, lease), Ids(second), now, lease) ==
              AfterClaims(jobs, Ids(first + second), now, lease)
  {
    hide ReadyForClaim, ClaimedJob, ReadyIds;
    var mid := AfterClaims(jobs, Ids(first), now, lease);
    ReadyAfter(jobs, Ids(first), now, lease);
    IdsConcat(first, second);
    forall i | 0 <= i < |second|
      ensures second[i].id !in Ids(first) && second[i].id in jobs
      ensures second[i] == ClaimedJob(jobs[second[i].id], now, lease)
    {
      assert second[i] in second;
      assert second[i].id in Ids(second);
      assert mid[second[i].id] == jobs[second[i].id];
    }
    DistinctConcat(first, second);
    assert Ids(first) !! Ids(second);
  }

  lemma SecondPassCount(jobs: map<string, Job>, first: seq<Job>, second: seq<Job>, now: Time, lease: Lease, limit: nat)
    requires lease.until > now && |first| < limit && Taken(jobs, first, now, lease)
    requires |second| == Min(limit - |first|, |ReadyIds(AfterClaims(jobs, Ids(first), now, lease), now)|)
    ensures |first + second| == Min(limit, |ReadyIds(jobs, now)|)
  {
    hide ReadyForClaim, ClaimedJob, ReadyIds, AfterClaims;
    ReadyAfter(jobs, Ids(first), now, lease);
    DistinctCard(first);
    CardDiff(ReadyIds(jobs, now), Ids(first));
  }

  lemma ClaimedCount(s: Store, t: Store, pool: set<Job>, picks: seq<Job>, claimed: seq<Job>, now: Time, lease: Lease,
      limit: nat)
    requires ClaimedFrom(s, t, pool, picks, claimed, now, lease, limit)
    ensures |picks| == Min(limit, |pool|)
  {
    hide StatsOf, ReadyForClaim, ClaimAll;
  }

  /** Both passes together claim exactly what one pass over everything would. */
  lemma TwoPassExact(s: Store, u: Store, t: Store, first: seq<Job>, picks: seq<Job>, second: seq<Job>, now: Time,
      lease: Lease, limit: nat)
    requires Consistent(s) && Consistent(u) && lease.until > now
    requires |first| < limit && Taken(s.jobs, first, now, lease)
    requires u.jobs == AfterClaims(s.jobs, Ids(first), now, lease)
    requires ClaimedFrom(u, t, FairQuery.ReadyRows(u.jobs.Values, now), picks, second, now, lease, limit - |first|)
    ensures ExactClaim(s, t, first + second, now, lease, limit)
  {
    hide Consistent, ClaimedFrom, ReadyForClaim, ClaimedJob, ReadyIds, AfterClaims, FairQuery.ReadyRows;
    ClaimedCount(u, t, FairQuery.ReadyRows(u.jobs.Values, now), picks, second, now, lease, limit - |first|);
    FirstPass(u, t, FairQuery.ReadyRows(u.jobs.Values, now), picks, second, now, lease, limit - |first|);
    KeyedJobs(u);
    ReadyCard(u.jobs, now);
    TakenConcat(s.jobs, first, second, now, lease);
    SecondPassCount(s.jobs, first, second, now, lease, limit);
  }

  lemma KeyedJobs(s: Store)
    requires Consistent(s)
    ensures forall id :: id in s.jobs ==> s.jobs[id].id == id
  {
    hide JobHistory;
  }

  lemma CardDiff<T>(a: set<T>, b: set<T>)
    requires b <= a
    ensures |a - b| == |a| - |b|
  {
    assert a == (a - b) + b;
  }

  lemma IdsConcat(a: seq<Job>, b: seq<Job>)
    ensures Ids(a + b) == Ids(a) + Ids(b)
  {
  }

  lemma DistinctConcat(a: seq<Job>, b: seq<Job>)
    requires DistinctSeq(a) && DistinctSeq(b)
    requires forall i :: 0 <= i < |b| ==> b[i].id !in Ids(a)
    ensures DistinctSeq(a + b)
  {
    var all := a + b;
    forall i, j | 0 <= i < j < |all|
      ensures all[i].id != all[j].id
    {
      if i < |a| <= j {
        assert all[i] in a && all[j] == b[j - |a|];
      }
    }
  }

  /** An exact claim is prompt: nothing too early, and below the limit nothing overdue is left. */
  lemma ExactIsPrompt(s: Store, t: Store, claimed: seq<Job>, now: Time, lease: Lease, limit: nat)
    requires ExactClaim(s, t, claimed, now, lease, limit)
    ensures Prompt(s.jobs, claimed, now, lease, limit)
  {
    hide Consistent, AfterClaims, ClaimedJob, ReadyForClaim, TooEarly, Overdue, ClaimOf;
    forall j | j in claimed
      ensures j.id in s.jobs && !TooEarly(s.jobs[j.id], now) && ClaimOf(s.jobs[j.id], j, now, lease)
    {
      var i :| 0 <= i < |claimed| && claimed[i] == j;
      assert j.id in Ids(claimed);
      ReadyExactly(s.jobs[j.id], now);
      ClaimWrites(s.jobs[j.id], now, lease);
    }
    DistinctCard(claimed);
    if |claimed| < limit {
      var ready := ReadyIds(s.jobs, now);
      CardDiff(ready, Ids(claimed));
      forall id | id in s.jobs && Overdue(s.jobs[id], now)
        ensures id in Ids(claimed)
      {
        ReadyExactly(s.jobs[id], now);
        assert id in ready;
        assert ready - Ids(claimed) == {};
        assert id in ready - Ids(claimed) || id in Ids(claimed);
      }
    }
  }
}
