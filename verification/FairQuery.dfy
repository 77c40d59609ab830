/**
 The database form of the fair ranking: a window query keeps only the first rows of each
 principal, and two aggregate queries supply the statistics.
 */
module FairQuery {
  import opened Base
  import opened JobModel
  import opened FairQueue

  function QueryPriority(job: Job, now: Time): int
  {
    Min(MAX_PRIORITY, Max(0, job.priority) + Max(0, (now - job.nextEligibleAt) / AGING_INTERVAL))
  }

  /** The window's ORDER BY inside one principal. */
  predicate QueryLess(left: Job, right: Job, now: Time)
  {
    var leftReclaim, rightReclaim := left.status == Dispatching, right.status == Dispatching;
    var lp, rp := QueryPriority(left, now), QueryPriority(right, now);
    if leftReclaim != rightReclaim then leftReclaim
    else if lp != rp then lp > rp
    else if left.nextEligibleAt != right.nextEligibleAt then left.nextEligibleAt < right.nextEligibleAt
    else if left.createdAt != right.createdAt then left.createdAt < right.createdAt
    else StringLess(left.id, right.id)
  }

  ghost function ReadyRows(jobs: set<Job>, now: Time): set<Job>
  {
    set j | j in jobs && ReadyForClaim(j, now)
  }

  /** Rows of the same principal that the window puts before x. */
  ghost function Ahead(x: Job, rows: set<Job>, now: Time): set<Job>
  {
    set y | y in rows && y.scope == x.scope && QueryLess(y, x, now)
  }

  /** Rows whose ROW_NUMBER is at most the limit. */
  ghost function Pruned(rows: set<Job>, now: Time, limit: nat): set<Job>
  {
    set x | x in rows && |Ahead(x, rows, now)| < limit
  }

  ghost function InFlightRows(jobs: set<Job>): set<Job>
  {
    set j | j in jobs && j.status in {Dispatching, Running, Canceling, Unknown}
  }

  /** One row per principal: its latest dispatch. */
  ghost function LatestPerPrincipal(activities: set<Activity>): set<Activity>
  {
    set a | a in activities && forall b :: b in activities && b.scope == a.scope ==> b.dispatchedAt <= a.dispatchedAt
  }

  predicate EligibleAfterCreation(job: Job) { job.createdAt <= job.nextEligibleAt }

  predicate SamePriority(job: Job, now: Time) { QueryPriority(job, now) == EffectivePriority(job, now) }

  /** Whole aging intervals between a time and now. */
  function Intervals(since: Time, now: Time): nat { if now > since then (now - since) / AGING_INTERVAL else 0 }

  /**
   The two priority expressions differ exactly when the row was eligible before it was created, that
   head start spans at least one more interval, and the program has not reached the top priority.
   */
  lemma PriorityAgrees(job: Job, now: Time)
    ensures !SamePriority(job, now) <==>
              && job.nextEligibleAt < job.createdAt && EffectivePriority(job, now) < MAX_PRIORITY
              && Intervals(job.nextEligibleAt, now) > Intervals(job.createdAt, now)
    ensures EligibleAfterCreation(job) ==> SamePriority(job, now)
    ensures QueryPriority(job, now) >= EffectivePriority(job, now)
  {
    QueryIntervals(job, now);
    if job.nextEligibleAt < job.createdAt {
      IntervalsFall(job.nextEligibleAt, job.createdAt, now);
    }
  }

  lemma QueryIntervals(job: Job, now: Time)
    ensures QueryPriority(job, now) == Min(MAX_PRIORITY, Max(0, job.priority) + Intervals(job.nextEligibleAt, now))
  {
    if now <= job.nextEligibleAt {
      assert (now - job.nextEligibleAt) / AGING_INTERVAL <= 0;
    } else {
      assert (now - job.nextEligibleAt) / AGING_INTERVAL >= 0;
    }
  }

  lemma IntervalsFall(a: Time, b: Time, now: Time)
    requires a <= b
    ensures Intervals(b, now) <= Intervals(a, now)
  {
    if now > b {
      assert (now - b) / AGING_INTERVAL <= (now - a) / AGING_INTERVAL;
    }
  }

  lemma OrderAgrees(x: Job, y: Job, now: Time, stats: Stats)
    requires x.scope == y.scope
    requires SamePriority(x, now) && SamePriority(y, now)
    ensures Less(x, y, now, stats) == QueryLess(x, y, now)
  {
    LevelOrderSign(stats, AppKey(x.scope), AppKey(y.scope));
    LevelOrderSign(stats, OwnerKey(x.scope), OwnerKey(y.scope));
    hide QueryPriority, EffectivePriority, LevelOrder;
  }

  lemma BestHasNoneAhead(b: Job, rows: set<Job>, now: Time, stats: Stats)
    requires DistinctIds(rows) && IsBest(b, rows, now, stats)
    requires forall x :: x in rows ==> SamePriority(x, now)
    ensures Ahead(b, rows, now) == {}
  {
    hide Less, QueryLess;
    forall y | y in rows && y.scope == b.scope
      ensures !QueryLess(y, b, now)
    {
      OrderAgrees(y, b, now, stats);
      if y == b {
        QueryLessIrreflexive(b, now);
      } else {
        LessTotal(y, b, now, stats);
      }
    }
  }

  lemma QueryLessIrreflexive(b: Job, now: Time)
    ensures !QueryLess(b, b, now)
  {
    StringLessAsymmetric(b.id, b.id);
  }

  lemma AheadAfterRemoval(x: Job, b: Job, rows: set<Job>, now: Time)
    ensures |Ahead(x, rows - {b}, now)| >= |Ahead(x, rows, now)| - 1
  {
    hide QueryLess;
    var before, after := Ahead(x, rows, now), Ahead(x, rows - {b}, now);
    assert after == before - {b};
  }

  /** As long as every dropped row has enough rows ahead of it, dropping it changes no pick. */
  lemma {:induction false} PrunedRank(rows: set<Job>, kept: set<Job>, now: Time, stats: Stats, m: nat)
    requires DistinctIds(rows) && DistinctIds(kept) && kept <= rows
    requires forall x :: x in rows ==> SamePriority(x, now)
    requires forall x :: x in rows - kept ==> |Ahead(x, rows, now)| >= m
    ensures Rank(kept, now, stats, m) == Rank(rows, now, stats, m)
    decreases m
  {
    hide Rank, Less, Ahead, Select, DistinctIds, SamePriority;
    if m == 0 || rows == {} {
      RankNil(rows, now, stats, m);
      RankNil(kept, now, stats, m);
    } else {
      var b, rest := RankCons(rows, now, stats, m);
      BestHasNoneAhead(b, rows, now, stats);
      assert b in kept;
      var b', rest' := RankCons(kept, now, stats, m);
      assert IsBest(b, kept, now, stats);
      BestUnique(b, b', kept, now, stats);
      forall x | x in (rows - {b}) - (kept - {b})
        ensures |Ahead(x, rows - {b}, now)| >= m - 1
      {
        AheadAfterRemoval(x, b, rows, now);
      }
      PrunedRank(rows - {b}, kept - {b}, now, Select(stats, b), m - 1);
    }
  }

  lemma InFlightRowsCount(jobs: set<Job>, k: LevelKey)
    ensures InFlightCount(InFlightRows(jobs), k) == InFlightCount(jobs, k)
  {
    assert (set j | j in InFlightRows(jobs) && j.status in {Dispatching, Running, Canceling, Unknown} &&
        HasKey(j.scope, k))
        == (set j | j in jobs && j.status in {Dispatching, Running, Canceling, Unknown} && HasKey(j.scope, k));
  }

  lemma {:induction false} LatestOfPrincipal(activities: set<Activity>, a: Activity) returns (top: Activity)
    requires a in activities
    ensures top in LatestPerPrincipal(activities) && top.scope == a.scope && top.dispatchedAt >= a.dispatchedAt
    decreases |set x | x in activities && x.scope == a.scope && x.dispatchedAt > a.dispatchedAt|
  {
    var above := set x | x in activities && x.scope == a.scope && x.dispatchedAt > a.dispatchedAt;
    if above == {} {
      forall b | b in activities && b.scope == a.scope
        ensures b.dispatchedAt <= a.dispatchedAt
      {
        assert b !in above;
      }
      top := a;
    } else {
      var b :| b in above;
      var above' := set x | x in activities && x.scope == b.scope && x.dispatchedAt > b.dispatchedAt;
      assert above' < above by {
        assert b in above && b !in above';
      }
      SubsetCard(above', above - {b});
      top := LatestOfPrincipal(activities, b);
    }
  }

  lemma LatestOfCover(all: set<Time>, kept: set<Time>)
    requires kept <= all
    requires forall t :: t in all ==> exists u :: u in kept && t <= u
    ensures Latest(kept) == Latest(all)
  {
    if all != {} {
      assert kept != {};
    }
    LatestUnique(all, Latest(kept));
  }

  ghost function DispatchTimes(activities: set<Activity>, k: LevelKey): set<Time>
  {
    set a | a in activities && a.dispatchedAt != ZERO_TIME && HasKey(a.scope, k) :: a.dispatchedAt
  }

  lemma LatestRowsCover(activities: set<Activity>, k: LevelKey, t: Time)
    requires t in DispatchTimes(activities, k)
    ensures exists u :: u in DispatchTimes(LatestPerPrincipal(activities), k) && t <= u
  {
    hide HasKey, LatestPerPrincipal;
    var a :| a in activities && a.dispatchedAt != ZERO_TIME && HasKey(a.scope, k) && a.dispatchedAt == t;
    var top := LatestOfPrincipal(activities, a);
    assert top.dispatchedAt in DispatchTimes(LatestPerPrincipal(activities), k);
  }

  lemma LatestRowsDispatch(activities: set<Activity>, k: LevelKey)
    ensures LastDispatch(LatestPerPrincipal(activities), k) == LastDispatch(activities, k)
  {
    hide HasKey, Latest;
    var all, kept := DispatchTimes(activities, k), DispatchTimes(LatestPerPrincipal(activities), k);
    forall t | t in all
      ensures exists u :: u in kept && t <= u
    {
      LatestRowsCover(activities, k, t);
    }
    LatestOfCover(all, kept);
  }

  lemma QueryStats(jobs: set<Job>, activities: set<Activity>, s: Stats, q: Stats, k: LevelKey)
    requires StatsOf(s, jobs, activities)
    requires StatsOf(q, InFlightRows(jobs), LatestPerPrincipal(activities))
    ensures StatsAt(s, k) == StatsAt(q, k)
  {
    InFlightRowsCount(jobs, k);
    LatestRowsDispatch(activities, k);
    hide InFlightCount, LastDispatch, StatsAt;
  }

  /**
   The pruned ranking claims exactly the jobs the full ranking claims, in the same order: rank
   every kept row with the aggregated statistics, take the first picks, and compare with ranking
   every ready job with statistics scanned from all jobs and all dispatch events.
   */
  lemma PruningLossless(jobs: set<Job>, activities: set<Activity>, now: Time, limit: nat, s: Stats, q: Stats)
    requires DistinctIds(jobs)
    requires forall x :: x in jobs && ReadyForClaim(x, now) ==> SamePriority(x, now)
    requires StatsOf(s, jobs, activities)
    requires StatsOf(q, InFlightRows(jobs), LatestPerPrincipal(activities))
    ensures var rows := ReadyRows(jobs, now);
            var kept := Pruned(rows, now, limit);
            && DistinctIds(rows) && DistinctIds(kept)
            && Rank(kept, now, q, |kept|)[..Min(limit, |kept|)] == Rank(rows, now, s, limit)
  {
    hide Rank, InFlightCount, LastDispatch, LatestPerPrincipal, InFlightRows, StatsAt, Ahead, ReadyForClaim, QueryLess;
    var rows := ReadyRows(jobs, now);
    var kept := Pruned(rows, now, limit);
    PrunedRank(rows, kept, now, s, limit);
    forall k
      ensures StatsAt(s, k) == StatsAt(q, k)
    {
      QueryStats(jobs, activities, s, q, k);
    }
    RankExtensional(kept, now, s, q, limit);
    if limit <= |kept| {
      RankPrefix(kept, now, q, limit, |kept|);
    } else {
      RankPrefix(kept, now, q, |kept|, limit);
    }
  }

  // ---- The eligibility condition is needed ----

  const SOLO := Scope("app", "key", "", "user", "u", "")

  const STALE := Job("stale", "op1", SOLO, "c", "gen", "k1", "f", Queued, 1, 0, 1, None, "", "", 0, "", 600_000,
      600_000, None)

  const URGENT := Job("urgent", "op2", SOLO, "c", "gen", "k2", "f", Queued, 1, 5, 600_000, None, "", "", 0, "", 600_000,
      600_000, None)

  lemma CounterexampleOrder()
    ensures DistinctIds({STALE, URGENT})
    ensures Pruned({STALE, URGENT}, 600_000, 1) == {STALE}
    ensures Less(URGENT, STALE, 600_000, map[])
  {
    var now: Time, rows := 600_000, {STALE, URGENT};
    assert QueryPriority(STALE, now) == 9 && QueryPriority(URGENT, now) == 5;
    assert EffectivePriority(STALE, now) == 0 && EffectivePriority(URGENT, now) == 5;
    LevelOrderSign(map[], AppKey(SOLO), AppKey(SOLO));
    LevelOrderSign(map[], OwnerKey(SOLO), OwnerKey(SOLO));
    QueryLessIrreflexive(STALE, now);
    assert QueryLess(STALE, URGENT, now) && !QueryLess(URGENT, STALE, now);
    assert Ahead(STALE, rows, now) == {};
    assert STALE in Ahead(URGENT, rows, now);
  }

  /** A row eligible before its own creation is aged by the query only, and the pruning then drops the right pick. */
  lemma PruningNeedsEligibility()
    ensures DistinctIds({STALE, URGENT}) && !EligibleAfterCreation(STALE)
    ensures Pruned({STALE, URGENT}, 600_000, 1) == {STALE}
    ensures Rank({STALE, URGENT}, 600_000, map[], 1) == [URGENT]
    ensures Rank({STALE}, 600_000, map[], 1) == [STALE]
  {
    hide Rank, Less, Pruned, Select;
    var now: Time, rows := 600_000, {STALE, URGENT};
    CounterexampleOrder();
    assert IsBest(URGENT, rows, now, map[]);
    var b, rest := RankCons(rows, now, map[], 1);
    BestUnique(b, URGENT, rows, now, map[]);
    RankNil(rows - {b}, now, Select(map[], b), 0);
    var b', rest' := RankCons({STALE}, now, map[], 1);
    RankNil({STALE} - {b'}, now, Select(map[], b'), 0);
  }
}
