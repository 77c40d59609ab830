/**
 Fair ranking of claimable jobs. Applications compete first, then the principals of one
 application, then single jobs; every pick counts as load for the picks after it.
 */
module FairQueue {
  import opened Base
  import opened Sorting
  import opened JobModel

  const MAX_PRIORITY := 9
  const AGING_INTERVAL := 60_000

  datatype Activity = Activity(scope: Scope, dispatchedAt: Time)

  datatype LevelKey = ApplicationLevel(key: string) | PrincipalLevel(key: string)

  datatype LevelStats = LevelStats(inFlight: nat, selected: nat, lastDispatch: Option<Time>)

  type Stats = map<LevelKey, LevelStats>

  function AppKey(scope: Scope): LevelKey { ApplicationLevel(scope.applicationId) }

  function OwnerKey(scope: Scope): LevelKey { PrincipalLevel(PrincipalKey(scope)) }

  predicate HasKey(scope: Scope, k: LevelKey) { k == AppKey(scope) || k == OwnerKey(scope) }

  function StatsAt(stats: Stats, k: LevelKey): LevelStats
  {
    if k in stats then stats[k] else LevelStats(0, 0, None)
  }

  function LoadAt(stats: Stats, k: LevelKey): nat
  {
    StatsAt(stats, k).inFlight + StatsAt(stats, k).selected
  }

  predicate InFlight(status: Status)
  {
    status == Dispatching || status == Running || status == Canceling || status == Unknown
  }

  function EffectivePriority(job: Job, now: Time): int
  {
    var base := if job.priority < 0 then 0 else if job.priority > MAX_PRIORITY then MAX_PRIORITY else job.priority;
    var waitStart :=
      if job.nextEligibleAt == ZERO_TIME || job.nextEligibleAt < job.createdAt then job.createdAt
          else job.nextEligibleAt;
    var aged := if now > waitStart then base + (now - waitStart) / AGING_INTERVAL else base;
    if aged > MAX_PRIORITY then MAX_PRIORITY else aged
  }

  /**
   A job starts at its priority, cut to 0..9, and gains one step for every whole minute it has waited
   since it was created and eligible, up to 9; so after nine minutes it is as urgent as any.
   */
  lemma AgedPriority(job: Job, now: Time, minutes: nat)
    ensures var start := Max(job.nextEligibleAt, job.createdAt);
            && (now < start ==> EffectivePriority(job, now) == Max(0, Min(9, job.priority)))
            && (start + 60_000 * minutes <= now < start + 60_000 * (minutes + 1) ==>
                  EffectivePriority(job, now) == Min(9, Max(0, job.priority) + minutes))
            && (now >= start + 540_000 ==> EffectivePriority(job, now) == 9)
  {
    var start := Max(job.nextEligibleAt, job.createdAt);
    if start + 60_000 * minutes <= now < start + 60_000 * (minutes + 1) {
      WholeIntervals(now - start, minutes);
    }
    if now >= start + 540_000 {
      assert (now - start) / 60_000 >= 9;
    }
  }

  lemma WholeIntervals(waited: nat, minutes: nat)
    requires 60_000 * minutes <= waited < 60_000 * (minutes + 1)
    ensures waited / AGING_INTERVAL == minutes
  {
  }

  function CompareStrings(a: string, b: string): int
  {
    if a == b then 0 else if StringLess(a, b) then -1 else 1
  }

  function CompareLevel(left: LevelStats, right: LevelStats, leftKey: string, rightKey: string): int
  {
    var leftLoad := left.inFlight + left.selected;
    var rightLoad := right.inFlight + right.selected;
    if leftLoad < rightLoad then -1
    else if leftLoad > rightLoad then 1
    else if left.lastDispatch.Some? != right.lastDispatch.Some? then
      if left.lastDispatch.None? then -1 else 1
    else if left.lastDispatch.Some? && left.lastDispatch.value != right.lastDispatch.value then
      if left.lastDispatch.value < right.lastDispatch.value then -1 else 1
    else CompareStrings(leftKey, rightKey)
  }

  function LevelOrder(stats: Stats, a: LevelKey, b: LevelKey): int
  {
    CompareLevel(StatsAt(stats, a), StatsAt(stats, b), a.key, b.key)
  }

  /** Order of two jobs of one principal: aged priority, then waiting time, age and identifier. */
  predicate TieLess(left: Job, right: Job, now: Time)
  {
    var lp, rp := EffectivePriority(left, now), EffectivePriority(right, now);
    if lp != rp then lp > rp
    else if left.nextEligibleAt != right.nextEligibleAt then left.nextEligibleAt < right.nextEligibleAt
    else if left.createdAt != right.createdAt then left.createdAt < right.createdAt
    else StringLess(left.id, right.id)
  }

  predicate Less(left: Job, right: Job, now: Time, stats: Stats)
  {
    var leftReclaim, rightReclaim := left.status == Dispatching, right.status == Dispatching;
    var app := LevelOrder(stats, AppKey(left.scope), AppKey(right.scope));
    var owner := LevelOrder(stats, OwnerKey(left.scope), OwnerKey(right.scope));
    if leftReclaim != rightReclaim then leftReclaim
    else if app != 0 then app < 0
    else if owner != 0 then owner < 0
    else TieLess(left, right, now)
  }

  // ---- The comparison is a strict total order on jobs with distinct identifiers ----

  lemma LevelOrderSign(stats: Stats, a: LevelKey, b: LevelKey)
    ensures LevelOrder(stats, a, b) == -LevelOrder(stats, b, a)
    ensures a.ApplicationLevel? == b.ApplicationLevel? ==> (LevelOrder(stats, a, b) == 0 <==> a == b)
  {
    StringLessAsymmetric(a.key, b.key);
    StringLessTotal(a.key, b.key);
  }

  lemma LevelOrderTransitive(stats: Stats, a: LevelKey, b: LevelKey, c: LevelKey)
    requires LevelOrder(stats, a, b) <= 0 && LevelOrder(stats, b, c) <= 0
    ensures LevelOrder(stats, a, c) <= 0
    ensures LevelOrder(stats, a, b) < 0 || LevelOrder(stats, b, c) < 0 ==> LevelOrder(stats, a, c) < 0
  {
    if StringLess(a.key, b.key) && StringLess(b.key, c.key) {
      StringLessTransitive(a.key, b.key, c.key);
    }
    StringLessAsymmetric(a.key, c.key);
  }

  lemma TieLessTotal(a: Job, b: Job, now: Time)
    requires a.id != b.id
    ensures TieLess(a, b, now) != TieLess(b, a, now)
  {
    StringLessAsymmetric(a.id, b.id);
    StringLessTotal(a.id, b.id);
  }

  lemma TieLessTransitive(a: Job, b: Job, c: Job, now: Time)
    requires TieLess(a, b, now) && TieLess(b, c, now)
    ensures TieLess(a, c, now)
  {
    if StringLess(a.id, b.id) && StringLess(b.id, c.id) {
      StringLessTransitive(a.id, b.id, c.id);
    }
  }

  lemma LessTotal(a: Job, b: Job, now: Time, stats: Stats)
    requires a.id != b.id
    ensures Less(a, b, now, stats) != Less(b, a, now, stats)
  {
    LevelOrderSign(stats, AppKey(a.scope), AppKey(b.scope));
    LevelOrderSign(stats, OwnerKey(a.scope), OwnerKey(b.scope));
    TieLessTotal(a, b, now);
  }

  lemma LessTransitive(a: Job, b: Job, c: Job, now: Time, stats: Stats)
    requires Less(a, b, now, stats) && Less(b, c, now, stats)
    ensures Less(a, c, now, stats)
  {
    var aa, ab, ac := AppKey(a.scope), AppKey(b.scope), AppKey(c.scope);
    var oa, ob, oc := OwnerKey(a.scope), OwnerKey(b.scope), OwnerKey(c.scope);
    if (a.status == Dispatching) == (b.status == Dispatching) == (c.status == Dispatching) {
      LevelOrderTransitive(stats, aa, ab, ac);
      LevelOrderSign(stats, aa, ab);
      LevelOrderSign(stats, ab, ac);
      LevelOrderSign(stats, aa, ac);
      if aa == ab == ac {
        LevelOrderTransitive(stats, oa, ob, oc);
        LevelOrderSign(stats, oa, ob);
        LevelOrderSign(stats, ob, oc);
        LevelOrderSign(stats, oa, oc);
        if oa == ob == oc {
          TieLessTransitive(a, b, c, now);
        }
      }
    }
  }

  // ---- Reference ranking over sets ----

  ghost predicate DistinctIds(jobs: set<Job>)
  {
    forall a, b :: a in jobs && b in jobs && a.id == b.id ==> a == b
  }

  ghost predicate IsBest(b: Job, jobs: set<Job>, now: Time, stats: Stats)
  {
    b in jobs && forall x :: x in jobs && x != b ==> Less(b, x, now, stats)
  }

  lemma {:induction false} BestExists(jobs: set<Job>, now: Time, stats: Stats)
    requires jobs != {} && DistinctIds(jobs)
    ensures exists b :: IsBest(b, jobs, now, stats)
    decreases |jobs|
  {
    var x :| x in jobs;
    var rest := jobs - {x};
    if rest == {} {
      assert jobs == {x};
      assert IsBest(x, jobs, now, stats);
    } else {
      BestExists(rest, now, stats);
      var b :| IsBest(b, rest, now, stats);
      LessTotal(x, b, now, stats);
      if Less(b, x, now, stats) {
        assert IsBest(b, jobs, now, stats);
      } else {
        forall y | y in jobs && y != x
          ensures Less(x, y, now, stats)
        {
          if y != b {
            LessTransitive(x, b, y, now, stats);
          }
        }
        assert IsBest(x, jobs, now, stats);
      }
    }
  }

  lemma BestUnique(a: Job, b: Job, jobs: set<Job>, now: Time, stats: Stats)
    requires DistinctIds(jobs)
    requires IsBest(a, jobs, now, stats) && IsBest(b, jobs, now, stats)
    ensures a == b
  {
    if a.id != b.id {
      LessTotal(a, b, now, stats);
    }
  }

  lemma FewerJobs(jobs: set<Job>, b: Job)
    requires DistinctIds(jobs) && b in jobs
    ensures DistinctIds(jobs - {b}) && |jobs - {b}| == |jobs| - 1
  {
  }

  ghost function Best(jobs: set<Job>, now: Time, stats: Stats): (b: Job)
    requires jobs != {} && DistinctIds(jobs)
    ensures b in jobs && IsBest(b, jobs, now, stats)
  {
    BestExists(jobs, now, stats);
    var b :| IsBest(b, jobs, now, stats);
    b
  }

  function Bump(stats: Stats, k: LevelKey): Stats
  {
    var s := StatsAt(stats, k);
    stats[k := s.(selected := s.selected + 1)]
  }

  function Select(stats: Stats, job: Job): Stats
  {
    Bump(Bump(stats, AppKey(job.scope)), OwnerKey(job.scope))
  }

  /** Repeatedly take the best remaining job and charge its application and principal. */
  ghost function Rank(jobs: set<Job>, now: Time, stats: Stats, n: nat): (out: seq<Job>)
    requires DistinctIds(jobs)
    ensures |out| == Min(n, |jobs|)
    ensures forall i :: 0 <= i < |out| ==> out[i] in jobs
    decreases n
  {
    if n == 0 || jobs == {} then []
    else
      var b := Best(jobs, now, stats);
      FewerJobs(jobs, b);
      [b] + Rank(jobs - {b}, now, Select(stats, b), n - 1)
  }

  /** Statistics: live jobs per key, and the latest dispatch recorded for a key. */
  ghost function InFlightCount(jobs: set<Job>, k: LevelKey): nat
  {
    |set j | j in jobs && j.status in {Dispatching, Running, Canceling, Unknown} && HasKey(j.scope, k)|
  }

  ghost function LastDispatch(activities: set<Activity>, k: LevelKey): Option<Time>
  {
    Latest(set a | a in activities && a.dispatchedAt != ZERO_TIME && HasKey(a.scope, k) :: a.dispatchedAt)
  }

  ghost predicate StatsOf(stats: Stats, jobs: set<Job>, activities: set<Activity>)
  {
    forall k :: StatsAt(stats, k) == LevelStats(InFlightCount(jobs, k), 0, LastDispatch(activities, k))
  }

  // ---- Shape of the ranking ----

  ghost predicate DistinctSeq(out: seq<Job>)
  {
    forall i, j :: 0 <= i < j < |out| ==> out[i].id != out[j].id
  }

  /** One unfolding of the ranking, for proofs that follow its recursion. */
  lemma RankCons(jobs: set<Job>, now: Time, stats: Stats, n: nat) returns (b: Job, rest: seq<Job>)
    requires DistinctIds(jobs) && n > 0 && jobs != {}
    ensures b in jobs && IsBest(b, jobs, now, stats) && DistinctIds(jobs - {b})
    ensures rest == Rank(jobs - {b}, now, Select(stats, b), n - 1)
    ensures Rank(jobs, now, stats, n) == [b] + rest
  {
    hide Less;
    b := Best(jobs, now, stats);
    rest := Rank(jobs - {b}, now, Select(stats, b), n - 1);
  }

  lemma RankNil(jobs: set<Job>, now: Time, stats: Stats, n: nat)
    requires DistinctIds(jobs) && (n == 0 || jobs == {})
    ensures Rank(jobs, now, stats, n) == []
  {
  }

  lemma BestIdUnique(b: Job, jobs: set<Job>, x: Job)
    requires DistinctIds(jobs) && b in jobs && x in jobs - {b}
    ensures b.id != x.id
  {
  }

  lemma DistinctCons(b: Job, rest: seq<Job>)
    requires DistinctSeq(rest)
    requires forall j :: 0 <= j < |rest| ==> b.id != rest[j].id
    ensures DistinctSeq([b] + rest)
  {
    var out := [b] + rest;
    forall i, j | 0 <= i < j < |out|
      ensures out[i].id != out[j].id
    {
      assert out[j] == rest[j - 1];
      assert i > 0 ==> out[i] == rest[i - 1];
    }
  }

  lemma {:induction false} RankDistinct(jobs: set<Job>, now: Time, stats: Stats, n: nat)
    requires DistinctIds(jobs)
    ensures DistinctSeq(Rank(jobs, now, stats, n))
    decreases n
  {
    hide Rank, IsBest, Less, DistinctIds;
    if n == 0 || jobs == {} {
      RankNil(jobs, now, stats, n);
    } else {
      var b, rest := RankCons(jobs, now, stats, n);
      RankDistinct(jobs - {b}, now, Select(stats, b), n - 1);
      forall j | 0 <= j < |rest|
        ensures b.id != rest[j].id
      {
        BestIdUnique(b, jobs, rest[j]);
      }
      DistinctCons(b, rest);
    }
  }

  lemma MinPred(m: nat, jobs: set<Job>, b: Job)
    requires m > 0 && b in jobs
    ensures Min(m - 1, |jobs - {b}|) == Min(m, |jobs|) - 1
  {
  }

  /** A smaller limit yields a prefix of what a larger limit yields. */
  lemma {:induction false} RankPrefix(jobs: set<Job>, now: Time, stats: Stats, m: nat, n: nat)
    requires DistinctIds(jobs) && m <= n
    ensures Rank(jobs, now, stats, m) == Rank(jobs, now, stats, n)[..Min(m, |jobs|)]
    decreases n
  {
    hide Rank, IsBest, Less, DistinctIds;
    if m == 0 || jobs == {} {
      RankNil(jobs, now, stats, m);
    } else {
      var b, rest := RankCons(jobs, now, stats, n);
      var b', rest' := RankCons(jobs, now, stats, m);
      BestUnique(b, b', jobs, now, stats);
      RankPrefix(jobs - {b}, now, Select(stats, b), m - 1, n - 1);
      MinPred(m, jobs, b);
      var k := Min(m, |jobs|);
      assert ([b] + rest)[..k] == [b] + rest[..k - 1];
    }
  }

  lemma SelectAt(stats: Stats, b: Job, k: LevelKey)
    ensures StatsAt(Select(stats, b), k)
         == var s := StatsAt(stats, k); if HasKey(b.scope, k) then s.(selected := s.selected + 1) else s
  {
  }

  /** Only the statistics values matter, not how the table stores defaults. */
  lemma {:induction false} RankExtensional(jobs: set<Job>, now: Time, s: Stats, t: Stats, n: nat)
    requires DistinctIds(jobs)
    requires forall k :: StatsAt(s, k) == StatsAt(t, k)
    ensures Rank(jobs, now, s, n) == Rank(jobs, now, t, n)
    decreases n
  {
    hide Rank, IsBest, Less, DistinctIds, StatsAt, Select;
    if n == 0 || jobs == {} {
      RankNil(jobs, now, s, n);
      RankNil(jobs, now, t, n);
    } else {
      var b, rest := RankCons(jobs, now, s, n);
      var b', rest' := RankCons(jobs, now, t, n);
      BestExtensional(b, jobs, now, s, t);
      BestUnique(b, b', jobs, now, t);
      forall k
        ensures StatsAt(Select(s, b), k) == StatsAt(Select(t, b), k)
      {
        SelectAt(s, b, k);
        SelectAt(t, b, k);
      }
      RankExtensional(jobs - {b}, now, Select(s, b), Select(t, b), n - 1);
    }
  }

  lemma BestExtensional(b: Job, jobs: set<Job>, now: Time, s: Stats, t: Stats)
    requires forall k :: StatsAt(s, k) == StatsAt(t, k)
    requires IsBest(b, jobs, now, s)
    ensures IsBest(b, jobs, now, t)
  {
    forall x | x in jobs && x != b
      ensures Less(b, x, now, t)
    {
      assert Less(b, x, now, s);
    }
  }

  // ---- Max-min fairness ----

  ghost function Picks(out: seq<Job>, k: LevelKey): nat
  {
    if out == [] then 0 else (if HasKey(out[0].scope, k) then 1 else 0) + Picks(out[1..], k)
  }

  lemma {:induction false} PicksNone(out: seq<Job>, k: LevelKey)
    requires forall i :: 0 <= i < |out| ==> !HasKey(out[i].scope, k)
    ensures Picks(out, k) == 0
  {
    if out != [] {
      PicksNone(out[1..], k);
    }
  }

  ghost function FinalLoad(stats: Stats, out: seq<Job>, k: LevelKey): nat
  {
    LoadAt(stats, k) + Picks(out, k)
  }

  lemma SelectLoad(stats: Stats, b: Job, k: LevelKey)
    ensures LoadAt(Select(stats, b), k) == LoadAt(stats, k) + (if HasKey(b.scope, k) then 1 else 0)
  {
  }

  /** Picking one job moves its load from the picks to the statistics. */
  lemma FinalLoadCons(stats: Stats, x: Job, rest: seq<Job>, k: LevelKey)
    ensures FinalLoad(stats, [x] + rest, k) == FinalLoad(Select(stats, x), rest, k)
  {
    hide Select, HasKey;
    SelectLoad(stats, x, k);
    assert ([x] + rest)[1..] == rest;
  }

  /** The loads the two fairness theorems compare. */
  ghost predicate Comparable(a: Job, b: Job, k: LevelKey, l: LevelKey, jobs: set<Job>)
  {
    || (k == AppKey(a.scope) && l == AppKey(b.scope))
    || (&& k == OwnerKey(a.scope) && l == OwnerKey(b.scope)
        && a.scope.applicationId == b.scope.applicationId
        && forall x :: x in jobs && OwnerKey(x.scope) == k ==> x.scope.applicationId == a.scope.applicationId)
  }

  lemma ComparableKey(a: Job, b: Job, k: LevelKey, l: LevelKey, jobs: set<Job>)
    requires Comparable(a, b, k, l, jobs)
    ensures HasKey(a.scope, k)
  {
  }

  /** Any job of the set with the same key may stand for the first one. */
  lemma ComparableRest(a: Job, b: Job, k: LevelKey, l: LevelKey, jobs: set<Job>, fewer: set<Job>, c: Job)
    requires Comparable(a, b, k, l, jobs) && fewer <= jobs && c in jobs && HasKey(c.scope, k)
    ensures Comparable(c, b, k, l, fewer)
  {
  }

  lemma BestLoad(x: Job, b: Job, jobs: set<Job>, now: Time, stats: Stats, k: LevelKey, l: LevelKey)
    requires DistinctIds(jobs)
    requires IsBest(x, jobs, now, stats) && b in jobs && b != x
    requires x.status != Dispatching
    requires Comparable(x, b, k, l, jobs)
    ensures LoadAt(stats, k) <= LoadAt(stats, l)
    ensures b.status != Dispatching
  {
    assert Less(x, b, now, stats);
    LevelOrderSign(stats, AppKey(x.scope), AppKey(b.scope));
  }

  /** When the first pick is the last one with key k, the bound is the comparison that chose it. */
  lemma FairnessLast(jobs: set<Job>, now: Time, stats: Stats, x: Job, rest: seq<Job>, b: Job, k: LevelKey, l: LevelKey)
    requires DistinctIds(jobs) && IsBest(x, jobs, now, stats) && x.status != Dispatching
    requires b in jobs && b != x
    requires forall i :: 0 <= i < |rest| ==> rest[i] in jobs && rest[i] != x
    requires forall i :: 0 <= i < |rest| ==> rest[i].status == Dispatching || !HasKey(rest[i].scope, k)
    requires Comparable(x, b, k, l, jobs)
    ensures FinalLoad(stats, [x] + rest, k) <= FinalLoad(stats, [x] + rest, l) + 1
  {
    BestLoad(x, b, jobs, now, stats, k, l);
    forall i | 0 <= i < |rest|
      ensures !HasKey(rest[i].scope, k)
    {
      assert Less(x, rest[i], now, stats);
    }
    PicksNone(rest, k);
    assert ([x] + rest)[1..] == rest;
  }

  lemma {:induction false} FairnessStep(jobs: set<Job>, now: Time, stats: Stats, n: nat, a: Job, b: Job, k: LevelKey,
      l: LevelKey)
    requires DistinctIds(jobs)
    requires a in Rank(jobs, now, stats, n) && a.status != Dispatching
    requires b in jobs && b !in Rank(jobs, now, stats, n)
    requires Comparable(a, b, k, l, jobs)
    ensures FinalLoad(stats, Rank(jobs, now, stats, n), k) <= FinalLoad(stats, Rank(jobs, now, stats, n), l) + 1
    decreases n
  {
    hide Rank, IsBest, Less, Select, FinalLoad, Comparable, HasKey, DistinctIds;
    ComparableKey(a, b, k, l, jobs);
    if n == 0 || jobs == {} {
      RankNil(jobs, now, stats, n);
      assert false;
    }
    var x, rest := RankCons(jobs, now, stats, n);
    if i :| 0 <= i < |rest| && rest[i].status != Dispatching && HasKey(rest[i].scope, k) {
      assert rest[i] in jobs - {x};
      ComparableRest(a, b, k, l, jobs, jobs - {x}, rest[i]);
      FairnessStep(jobs - {x}, now, Select(stats, x), n - 1, rest[i], b, k, l);
      FinalLoadCons(stats, x, rest, k);
      FinalLoadCons(stats, x, rest, l);
    } else {
      assert a == x;
      FairnessLast(jobs, now, stats, x, rest, b, k, l);
    }
  }

  /**
   Applications: once an application got a queued job, it ends at most one above any
   application that still has a job left over.
   */
  lemma ApplicationFairness(jobs: set<Job>, now: Time, stats: Stats, n: nat, a: Job, b: Job)
    requires DistinctIds(jobs)
    requires a in Rank(jobs, now, stats, n) && a.status != Dispatching
    requires b in jobs && b !in Rank(jobs, now, stats, n)
    ensures FinalLoad(stats, Rank(jobs, now, stats, n), AppKey(a.scope))
         <= FinalLoad(stats, Rank(jobs, now, stats, n), AppKey(b.scope)) + 1
  {
    FairnessStep(jobs, now, stats, n, a, b, AppKey(a.scope), AppKey(b.scope));
  }

  /** The same bound between two principals of one application. */
  lemma PrincipalFairness(jobs: set<Job>, now: Time, stats: Stats, n: nat, a: Job, b: Job)
    requires DistinctIds(jobs)
    requires forall x :: x in jobs ==> NulFreeScope(x.scope)
    requires a in Rank(jobs, now, stats, n) && a.status != Dispatching
    requires b in jobs && b !in Rank(jobs, now, stats, n)
    requires a.scope.applicationId == b.scope.applicationId
    ensures FinalLoad(stats, Rank(jobs, now, stats, n), OwnerKey(a.scope))
         <= FinalLoad(stats, Rank(jobs, now, stats, n), OwnerKey(b.scope)) + 1
  {
    forall x | x in jobs && OwnerKey(x.scope) == OwnerKey(a.scope)
      ensures x.scope.applicationId == a.scope.applicationId
    {
      PrincipalKeyInjective(x.scope, a.scope);
    }
    FairnessStep(jobs, now, stats, n, a, b, OwnerKey(a.scope), OwnerKey(b.scope));
  }

  // ---- The ranking loop ----

  lemma InFlightStep(jobs: set<Job>, job: Job, k: LevelKey)
    requires job !in jobs
    ensures InFlightCount(jobs + {job}, k)
         == InFlightCount(jobs, k) + (if InFlight(job.status) && HasKey(job.scope, k) then 1 else 0)
  {
    hide HasKey;
    var before := set j | j in jobs && j.status in {Dispatching, Running, Canceling, Unknown} && HasKey(j.scope, k);
    var after :=
      set j | j in jobs + {job} && j.status in {Dispatching, Running, Canceling, Unknown} && HasKey(j.scope, k);
    if InFlight(job.status) && HasKey(job.scope, k) {
      assert job !in before;
      assert after == before + {job};
    } else {
      assert forall j :: j in after <==> j in before;
      assert after == before;
    }
  }

  lemma LastDispatchStep(activities: set<Activity>, a: Activity, k: LevelKey)
    ensures LastDispatch(activities + {a}, k)
         == if a.dispatchedAt != ZERO_TIME && HasKey(a.scope, k)
             then LaterOf(LastDispatch(activities, k), a.dispatchedAt)
            else LastDispatch(activities, k)
  {
    hide HasKey;
    var before := set x | x in activities && x.dispatchedAt != ZERO_TIME && HasKey(x.scope, k) :: x.dispatchedAt;
    var after := set x | x in activities + {a} && x.dispatchedAt != ZERO_TIME && HasKey(x.scope, k) :: x.dispatchedAt;
    if a.dispatchedAt != ZERO_TIME && HasKey(a.scope, k) {
      assert after == before + {a.dispatchedAt};
      LatestUnique(after, LaterOf(Latest(before), a.dispatchedAt));
    } else {
      assert after == before;
    }
  }

  function LaterOf(last: Option<Time>, at: Time): Option<Time>
  {
    if last.None? || at > last.value then Some(at) else last
  }

  function CountJob(stats: Stats, k: LevelKey): Stats
  {
    var s := StatsAt(stats, k);
    stats[k := s.(inFlight := s.inFlight + 1)]
  }

  function NoteDispatch(stats: Stats, k: LevelKey, at: Time): Stats
  {
    var s := StatsAt(stats, k);
    stats[k := s.(lastDispatch := LaterOf(s.lastDispatch, at))]
  }

  function CountedJob(stats: Stats, job: Job): Stats
  {
    if InFlight(job.status) then CountJob(CountJob(stats, AppKey(job.scope)), OwnerKey(job.scope)) else stats
  }

  function NotedDispatch(stats: Stats, a: Activity): Stats
  {
    if a.dispatchedAt == ZERO_TIME then stats
    else NoteDispatch(NoteDispatch(stats, AppKey(a.scope), a.dispatchedAt), OwnerKey(a.scope), a.dispatchedAt)
  }

  lemma CountedJobStep(stats: Stats, jobs: set<Job>, job: Job)
    requires StatsOf(stats, jobs, {}) && job !in jobs
    ensures StatsOf(CountedJob(stats, job), jobs + {job}, {})
  {
    hide InFlightCount, LastDispatch;
    var next := CountedJob(stats, job);
    forall k
      ensures StatsAt(next, k) == LevelStats(InFlightCount(jobs + {job}, k), 0, LastDispatch({}, k))
    {
      InFlightStep(jobs, job, k);
      assert StatsAt(stats, k) == LevelStats(InFlightCount(jobs, k), 0, LastDispatch({}, k));
    }
  }

  lemma NotedDispatchStep(stats: Stats, jobs: set<Job>, activities: set<Activity>, a: Activity)
    requires StatsOf(stats, jobs, activities)
    ensures StatsOf(NotedDispatch(stats, a), jobs, activities + {a})
  {
    hide InFlightCount, LastDispatch;
    var next := NotedDispatch(stats, a);
    forall k
      ensures StatsAt(next, k) == LevelStats(InFlightCount(jobs, k), 0, LastDispatch(activities + {a}, k))
    {
      LastDispatchStep(activities, a, k);
      assert StatsAt(stats, k) == LevelStats(InFlightCount(jobs, k), 0, LastDispatch(activities, k));
    }
  }

  lemma NoStats()
    ensures StatsOf(map[], {}, {})
  {
    forall k
      ensures InFlightCount({}, k) == 0 && LastDispatch({}, k) == None
    {
      var live := set j: Job | j in {} && j.status in {Dispatching, Running, Canceling, Unknown} && HasKey(j.scope, k);
      assert live == {};
    }
  }

  lemma ElementsSnoc<T>(s: seq<T>, i: nat)
    requires i < |s|
    ensures Members(s[..i + 1]) == Members(s[..i]) + {s[i]}
  {
    assert s[..i + 1] == s[..i] + [s[i]];
  }

  method CollectStats(jobs: seq<Job>, activities: seq<Activity>) returns (stats: Stats)
    requires DistinctSeq(jobs)
    ensures StatsOf(stats, Members(jobs), Members(activities))
  {
    hide StatsOf;
    stats := map[];
    NoStats();
    assert Members(jobs[..0]) == {};
    for i := 0 to |jobs|
      invariant StatsOf(stats, Members(jobs[..i]), {})
    {
      ElementsSnoc(jobs, i);
      CountedJobStep(stats, Members(jobs[..i]), jobs[i]);
      if InFlight(jobs[i].status) {
        stats := CountJob(stats, AppKey(jobs[i].scope));
        stats := CountJob(stats, OwnerKey(jobs[i].scope));
      }
    }
    assert jobs[..|jobs|] == jobs && activities[..|activities|] == activities;
    assert Members(activities[..0]) == {};
    for i := 0 to |activities|
      invariant StatsOf(stats, Members(jobs), Members(activities[..i]))
    {
      ElementsSnoc(activities, i);
      NotedDispatchStep(stats, Members(jobs), Members(activities[..i]), activities[i]);
      if activities[i].dispatchedAt != ZERO_TIME {
        stats := NoteDispatch(stats, AppKey(activities[i].scope), activities[i].dispatchedAt);
        stats := NoteDispatch(stats, OwnerKey(activities[i].scope), activities[i].dispatchedAt);
      }
    }
  }

  lemma SwapRemoved(s: seq<Job>, best: nat)
    requires DistinctSeq(s) && best < |s|
    ensures var t := s[best := s[|s| - 1]][..|s| - 1];
            DistinctSeq(t) && Members(t) == Members(s) - {s[best]}
  {
    var t := s[best := s[|s| - 1]][..|s| - 1];
    forall x | x in Members(s) - {s[best]}
      ensures x in t
    {
      var i :| 0 <= i < |s| && s[i] == x;
      if i == |s| - 1 {
        assert t[best] == x;
      } else {
        assert t[i] == x;
      }
    }
    forall x | x in t
      ensures x in Members(s) - {s[best]}
    {
      var i :| 0 <= i < |t| && t[i] == x;
      assert x == s[if i == best then |s| - 1 else i];
    }
  }

  lemma DistinctElements(s: seq<Job>)
    requires DistinctSeq(s)
    ensures DistinctIds(Members(s))
  {
  }

  /** Index of the best remaining job, found by one scan. */
  method FindBest(remaining: seq<Job>, now: Time, stats: Stats) returns (best: nat)
    requires remaining != [] && DistinctSeq(remaining)
    ensures best < |remaining| && IsBest(remaining[best], Members(remaining), now, stats)
  {
    best := 0;
    for index := 1 to |remaining|
      invariant best < index
      invariant forall i :: 0 <= i < index && i != best ==> Less(remaining[best], remaining[i], now, stats)
    {
      LessTotal(remaining[index], remaining[best], now, stats);
      if Less(remaining[index], remaining[best], now, stats) {
        forall i | 0 <= i < index && i != best
          ensures Less(remaining[index], remaining[i], now, stats)
        {
          LessTransitive(remaining[index], remaining[best], remaining[i], now, stats);
        }
        best := index;
      }
    }
  }

  /** The selection loop: swap-removal and mutable statistics. */
  method SelectBest(candidates: seq<Job>, now: Time, initial: Stats, limit: nat) returns (out: seq<Job>)
    requires DistinctSeq(candidates) && DistinctIds(Members(candidates))
    ensures out == Rank(Members(candidates), now, initial, limit)
  {
    hide Rank, Less, IsBest, Select, DistinctIds;
    var stats, remaining := initial, candidates;
    out := [];
    while |remaining| > 0 && |out| < limit
      invariant |out| <= limit
      invariant DistinctSeq(remaining) && DistinctIds(Members(remaining))
      invariant out + Rank(Members(remaining), now, stats, limit - |out|)
             == Rank(Members(candidates), now, initial, limit)
      decreases |remaining|
    {
      var best := FindBest(remaining, now, stats);
      assert remaining[best] in Members(remaining);
      ghost var b, rest := RankCons(Members(remaining), now, stats, limit - |out|);
      BestUnique(b, remaining[best], Members(remaining), now, stats);
      SwapRemoved(remaining, best);
      var selected := remaining[best];
      assert out + ([b] + rest) == (out + [b]) + rest;
      out, stats := out + [selected], Select(stats, selected);
      remaining := remaining[best := remaining[|remaining| - 1]][..|remaining| - 1];
    }
    assert |remaining| == 0 ==> Members(remaining) == {};
    RankNil(Members(remaining), now, stats, limit - |out|);
  }

  // ---- Who is served next, said in loads, dispatch times and ages ----

  /** The first key was never served, or no later than the second. */
  predicate ServedNoLater(stats: Stats, a: LevelKey, b: LevelKey)
  {
    var x, y := StatsAt(stats, a).lastDispatch, StatsAt(stats, b).lastDispatch;
    x.None? || (y.Some? && x.value <= y.value)
  }

  /** After these picks the first key carries less load, or the same and was served no later. */
  ghost predicate LevelFirst(stats: Stats, picked: seq<Job>, a: LevelKey, b: LevelKey)
  {
    var x := StatsAt(stats, a).inFlight + StatsAt(stats, a).selected + Picks(picked, a);
    var y := StatsAt(stats, b).inFlight + StatsAt(stats, b).selected + Picks(picked, b);
    x < y || (x == y && ServedNoLater(stats, a, b))
  }

  /** Higher aged priority, then earlier eligibility, then earlier creation. */
  predicate JobFirst(a: Job, b: Job, now: Time)
  {
    var p, q := EffectivePriority(a, now), EffectivePriority(b, now);
    || p > q
    || (p == q && a.nextEligibleAt < b.nextEligibleAt)
    || (p == q && a.nextEligibleAt == b.nextEligibleAt && a.createdAt <= b.createdAt)
  }

  /** Lease reclaims go first; then the application decides, then its principal, then the job. */
  ghost predicate ServedBefore(stats: Stats, picked: seq<Job>, a: Job, b: Job, now: Time)
  {
    var sameApp := a.scope.applicationId == b.scope.applicationId;
    var sameOwner := PrincipalKey(a.scope) == PrincipalKey(b.scope);
    && (b.status == Dispatching ==> a.status == Dispatching)
    && ((a.status == Dispatching) == (b.status == Dispatching) ==>
          && (!sameApp ==> LevelFirst(stats, picked, AppKey(a.scope), AppKey(b.scope)))
          && (sameApp && !sameOwner ==> LevelFirst(stats, picked, OwnerKey(a.scope), OwnerKey(b.scope)))
          && (sameApp && sameOwner ==> JobFirst(a, b, now)))
  }

  /** Every pick is served before everything that was still waiting, given the picks made until then. */
  ghost predicate ServedInOrder(out: seq<Job>, jobs: set<Job>, stats: Stats, now: Time)
  {
    forall i, y :: 0 <= i < |out| && y in jobs && y !in out[..i] ==> ServedBefore(stats, out[..i], out[i], y, now)
  }

  lemma LessServed(a: Job, b: Job, now: Time, stats: Stats)
    requires Less(a, b, now, stats)
    ensures ServedBefore(stats, [], a, b, now)
  {
    hide EffectivePriority, PrincipalKey;
    LevelOrderSign(stats, AppKey(a.scope), AppKey(b.scope));
    LevelOrderSign(stats, OwnerKey(a.scope), OwnerKey(b.scope));
  }

  lemma ServedItself(stats: Stats, picked: seq<Job>, a: Job, now: Time)
    ensures ServedBefore(stats, picked, a, a, now)
  {
    hide EffectivePriority, PrincipalKey;
  }

  lemma LevelFirstCons(stats: Stats, x: Job, picked: seq<Job>, a: LevelKey, b: LevelKey)
    ensures LevelFirst(Select(stats, x), picked, a, b) == LevelFirst(stats, [x] + picked, a, b)
  {
    hide Select, HasKey;
    SelectAt(stats, x, a);
    SelectAt(stats, x, b);
    assert ([x] + picked)[1..] == picked;
  }

  lemma ServedCons(stats: Stats, x: Job, picked: seq<Job>, a: Job, b: Job, now: Time)
    requires ServedBefore(Select(stats, x), picked, a, b, now)
    ensures ServedBefore(stats, [x] + picked, a, b, now)
  {
    hide Select, LevelFirst, PrincipalKey, EffectivePriority;
    LevelFirstCons(stats, x, picked, AppKey(a.scope), AppKey(b.scope));
    LevelFirstCons(stats, x, picked, OwnerKey(a.scope), OwnerKey(b.scope));
  }

  lemma {:induction false} RankServes(jobs: set<Job>, now: Time, stats: Stats, n: nat, i: nat, y: Job)
    requires DistinctIds(jobs) && i < |Rank(jobs, now, stats, n)|
    requires y in jobs && y !in Rank(jobs, now, stats, n)[..i]
    ensures ServedBefore(stats, Rank(jobs, now, stats, n)[..i], Rank(jobs, now, stats, n)[i], y, now)
    decreases n
  {
    hide Rank, Less, Select, ServedBefore, DistinctIds;
    if n == 0 || jobs == {} {
      RankNil(jobs, now, stats, n);
      assert false;
    }
    var b, rest := RankCons(jobs, now, stats, n);
    var out := [b] + rest;
    if i == 0 {
      assert out[..0] == [];
      if y == b {
        ServedItself(stats, [], b, now);
      } else {
        LessServed(b, y, now, stats);
      }
    } else {
      assert out[..i] == [b] + rest[..i - 1];
      assert y != b && y !in rest[..i - 1];
      RankServes(jobs - {b}, now, Select(stats, b), n - 1, i - 1, y);
      ServedCons(stats, b, rest[..i - 1], rest[i - 1], y, now);
    }
  }

  /**
   The ranking serves in order. Without reclaims its first pick belongs to an application of least
   load; among those a never dispatched one goes first, else the one dispatched longest ago; the same
   between the principals of that application; and within the principal the most urgent job.
   */
  lemma RankInOrder(jobs: set<Job>, now: Time, stats: Stats, n: nat)
    requires DistinctIds(jobs)
    ensures ServedInOrder(Rank(jobs, now, stats, n), jobs, stats, now)
  {
    hide Rank, ServedBefore, DistinctIds;
    var out := Rank(jobs, now, stats, n);
    forall i, y | 0 <= i < |out| && y in jobs && y !in out[..i]
      ensures ServedBefore(stats, out[..i], out[i], y, now)
    {
      RankServes(jobs, now, stats, n, i, y);
    }
  }

  /**
   The ranking as the scheduler runs it. The result is a function of the sets of candidates,
   jobs and activities alone, so no iteration order can change it.
   */
  method RankFairCandidates(candidates: seq<Job>, jobs: seq<Job>, activities: seq<Activity>, now: Time, limit: int)
    returns (out: seq<Job>)
    requires DistinctSeq(candidates) && DistinctSeq(jobs)
    ensures DistinctIds(Members(candidates))
    ensures forall stats :: StatsOf(stats, Members(jobs), Members(activities)) ==>
              out == Rank(Members(candidates), now, stats, Max(limit, 0))
    ensures |out| == Min(Max(limit, 0), |Members(candidates)|)
    ensures forall stats :: StatsOf(stats, Members(jobs), Members(activities)) ==>
              ServedInOrder(out, Members(candidates), stats, now)
  {
    out := RankCandidates(candidates, jobs, activities, now, limit);
    forall stats | StatsOf(stats, Members(jobs), Members(activities))
      ensures ServedInOrder(out, Members(candidates), stats, now)
    {
      RankInOrder(Members(candidates), now, stats, Max(limit, 0));
    }
  }

  method RankCandidates(candidates: seq<Job>, jobs: seq<Job>, activities: seq<Activity>, now: Time, limit: int)
    returns (out: seq<Job>)
    requires DistinctSeq(candidates) && DistinctSeq(jobs)
    ensures DistinctIds(Members(candidates)) && |out| == Min(Max(limit, 0), |Members(candidates)|)
    ensures forall stats :: StatsOf(stats, Members(jobs), Members(activities)) ==>
              out == Rank(Members(candidates), now, stats, Max(limit, 0))
  {
    hide Rank, InFlightCount, LastDispatch;
    DistinctElements(candidates);
    if limit <= 0 || |candidates| == 0 {
      out := [];
      assert candidates == [] ==> Members(candidates) == {};
      forall stats | StatsOf(stats, Members(jobs), Members(activities))
        ensures out == Rank(Members(candidates), now, stats, Max(limit, 0))
      {
        RankNil(Members(candidates), now, stats, Max(limit, 0));
      }
    } else {
      var stats := CollectStats(jobs, activities);
      out := SelectBest(candidates, now, stats, limit);
      forall s | StatsOf(s, Members(jobs), Members(activities))
        ensures out == Rank(Members(candidates), now, s, Max(limit, 0))
      {
        RankExtensional(Members(candidates), now, s, stats, limit);
      }
    }
  }
}
