/**
 Round-robin interleaving of ordered groups: one element of every group per round, cut off at
 a limit. Both ready indexes draw their candidates this way.
 */
module RoundRobin {
  import opened Base
  import opened Sorting

  /** Everything taken before position k of round r. */
  function Upto<T>(groups: seq<seq<T>>, r: nat, k: nat): seq<T>
    requires k <= |groups|
    decreases r, k
  {
    if k == 0 then (if r == 0 then [] else Upto(groups, r - 1, |groups|))
    else Upto(groups, r, k - 1) + (if r < |groups[k - 1]| then [groups[k - 1][r]] else [])
  }

  lemma UptoNext<T>(groups: seq<seq<T>>, r: nat, k: nat)
    requires k < |groups|
    ensures Upto(groups, r, k + 1) == Upto(groups, r, k) + (if r < |groups[k]| then [groups[k][r]] else [])
  {
  }

  function Longest<T>(groups: seq<seq<T>>): nat
  {
    if groups == [] then 0 else Max(|groups[0]|, Longest(groups[1..]))
  }

  lemma {:induction false} LongestBound<T>(groups: seq<seq<T>>, i: nat)
    requires i < |groups|
    ensures |groups[i]| <= Longest(groups)
  {
    if i > 0 {
      LongestBound(groups[1..], i - 1);
    }
  }

  /** The complete interleaving. */
  function All<T>(groups: seq<seq<T>>): seq<T> { Upto(groups, Longest(groups), 0) }

  /** How many elements of group i lie before position k of round r. */
  function Taken<T>(groups: seq<seq<T>>, i: nat, r: nat, k: nat): nat
    requires i < |groups|
  {
    Min(|groups[i]|, if i < k then r + 1 else r)
  }

  lemma {:induction false} UptoMonotone<T>(groups: seq<seq<T>>, r: nat, k: nat, r': nat, k': nat)
    requires k <= |groups| && k' <= |groups|
    requires r < r' || (r == r' && k <= k')
    ensures Upto(groups, r, k) <= Upto(groups, r', k')
    decreases r', k'
  {
    if r == r' && k == k' {
    } else if k' > 0 {
      if r < r' || k < k' {
        UptoMonotone(groups, r, k, r', k' - 1);
      }
    } else {
      UptoMonotone(groups, r, k, r' - 1, |groups|);
    }
  }

  /** Past the longest group nothing more is added. */
  lemma {:induction false} UptoSaturates<T>(groups: seq<seq<T>>, r: nat, k: nat)
    requires k <= |groups| && r >= Longest(groups)
    ensures Upto(groups, r, k) == All(groups)
    decreases r, k
  {
    if k > 0 {
      LongestBound(groups, k - 1);
      UptoSaturates(groups, r, k - 1);
    } else if r > Longest(groups) {
      UptoSaturates(groups, r - 1, |groups|);
    }
  }

  predicate TakenAt<T(==)>(groups: seq<seq<T>>, i: nat, p: nat, r: nat, k: nat, x: T)
  {
    i < |groups| && p < Taken(groups, i, r, k) && groups[i][p] == x
  }

  /** Exactly the first elements of each group are taken: group i gives a prefix of length Taken. */
  lemma {:induction false} UptoContents<T>(groups: seq<seq<T>>, r: nat, k: nat, x: T)
    requires k <= |groups|
    ensures x in Upto(groups, r, k) <==> exists i, p :: TakenAt(groups, i, p, r, k, x)
    decreases r, k
  {
    if k > 0 {
      var before: nat := k - 1;
      UptoContents(groups, r, before, x);
      if i, p :| TakenAt(groups, i, p, r, k, x) {
        assert TakenAt(groups, i, p, r, before, x) || (i == k - 1 && p == r);
      }
      if i, p :| TakenAt(groups, i, p, r, before, x) {
        assert TakenAt(groups, i, p, r, k, x);
      }
      if r < |groups[k - 1]| && x == groups[k - 1][r] {
        assert TakenAt(groups, k - 1, r, r, k, x);
      }
    } else if r > 0 {
      var last: nat, end: nat := r - 1, |groups|;
      UptoContents(groups, last, end, x);
      if i, p :| TakenAt(groups, i, p, r, 0, x) {
        assert TakenAt(groups, i, p, last, end, x);
      }
      if i, p :| TakenAt(groups, i, p, last, end, x) {
        assert TakenAt(groups, i, p, r, 0, x);
      }
    }
  }

  /** Element a of a sequence is the one at place p of group i. */
  predicate DrawnAt<T(==)>(out: seq<T>, groups: seq<seq<T>>, a: nat, i: nat, p: nat)
  {
    a < |out| && i < |groups| && p < |groups[i]| && out[a] == groups[i][p]
  }

  lemma {:induction false} UptoPlace<T>(groups: seq<seq<T>>, r: nat, k: nat, a: nat) returns (i: nat, p: nat)
    requires k <= |groups| && a < |Upto(groups, r, k)|
    ensures DrawnAt(Upto(groups, r, k), groups, a, i, p) && (p < r || (p == r && i < k))
    decreases r, k
  {
    if k == 0 {
      i, p := UptoPlace(groups, r - 1, |groups|, a);
    } else if a < |Upto(groups, r, k - 1)| {
      i, p := UptoPlace(groups, r, k - 1, a);
    } else {
      i, p := k - 1, r;
    }
  }

  /** Of two elements drawn, the first stood further ahead in its group, or as far in an earlier group. */
  lemma {:induction false} UptoOrdered<T>(groups: seq<seq<T>>, r: nat, k: nat, a: nat, b: nat)
    returns (i: nat, p: nat, j: nat, q: nat)
    requires k <= |groups| && a < b < |Upto(groups, r, k)|
    ensures DrawnAt(Upto(groups, r, k), groups, a, i, p) && DrawnAt(Upto(groups, r, k), groups, b, j, q)
    ensures p < q || (p == q && i < j)
    decreases r, k
  {
    if k == 0 {
      i, p, j, q := UptoOrdered(groups, r - 1, |groups|, a, b);
    } else if b < |Upto(groups, r, k - 1)| {
      i, p, j, q := UptoOrdered(groups, r, k - 1, a, b);
    } else {
      i, p := UptoPlace(groups, r, k - 1, a);
      j, q := k - 1, r;
    }
  }

  // ---- Groups without a common element ----

  /** No element occurs twice, within a group or across groups. */
  ghost predicate Apart<T(!new)>(groups: seq<seq<T>>)
  {
    forall i, p, j, q | 0 <= i < |groups| && 0 <= p < |groups[i]| && 0 <= j < |groups| && 0 <= q < |groups[j]| ::
      groups[i][p] == groups[j][q] ==> i == j && p == q
  }

  /** The elements of the sequence that belong to the group, in the order of the sequence. */
  function Share<T(==)>(s: seq<T>, group: seq<T>): seq<T>
  {
    if s == [] then []
    else Share(s[..|s| - 1], group) + (if s[|s| - 1] in group then [s[|s| - 1]] else [])
  }

  lemma ShareSnoc<T>(s: seq<T>, x: T, group: seq<T>)
    ensures Share(s + [x], group) == Share(s, group) + (if x in group then [x] else [])
  {
    assert (s + [x])[..|s|] == s;
  }

  /** The element at position r of group i is not among those taken before it. */
  lemma NotYetTaken<T(!new)>(groups: seq<seq<T>>, r: nat, i: nat)
    requires Apart(groups) && i < |groups| && r < |groups[i]|
    ensures groups[i][r] !in Upto(groups, r, i)
  {
    UptoContents(groups, r, i, groups[i][r]);
    forall j: nat, p: nat
      ensures !TakenAt(groups, j, p, r, i, groups[i][r])
    {
    }
  }

  lemma OnlyOwnGroup<T(!new)>(groups: seq<seq<T>>, r: nat, i: nat, j: nat)
    requires Apart(groups) && i < |groups| && r < |groups[i]| && j < |groups|
    ensures groups[i][r] in groups[j] <==> i == j
  {
  }

  /** Nothing is drawn twice. */
  lemma {:induction false} UptoDistinct<T(!new)>(groups: seq<seq<T>>, r: nat, k: nat)
    requires Apart(groups) && k <= |groups|
    ensures NoDuplicates(Upto(groups, r, k))
    decreases r, k
  {
    hide Apart;
    if k > 0 {
      UptoDistinct(groups, r, k - 1);
      if r < |groups[k - 1]| {
        NotYetTaken(groups, r, k - 1);
        OneMore(Upto(groups, r, k - 1), groups[k - 1][r]);
      }
    } else if r > 0 {
      UptoDistinct(groups, r - 1, |groups|);
    }
  }

  lemma PrefixStep<T>(groups: seq<seq<T>>, r: nat, k: nat, i: nat)
    requires 0 < k <= |groups| && i < |groups|
    ensures groups[i][..Taken(groups, i, r, k)] ==
            groups[i][..Taken(groups, i, r, k - 1)] + (if i == k - 1 && r < |groups[i]| then [groups[i][r]] else [])
  {
    if i == k - 1 && r < |groups[i]| {
      assert groups[i][..r + 1] == groups[i][..r] + [groups[i][r]];
    }
  }

  lemma ShareStep<T(!new)>(groups: seq<seq<T>>, r: nat, k: nat, i: nat)
    requires Apart(groups) && 0 < k <= |groups| && i < |groups|
    ensures Share(Upto(groups, r, k), groups[i]) ==
            Share(Upto(groups, r, k - 1), groups[i]) + (if i == k - 1 && r < |groups[i]| then [groups[i][r]] else [])
  {
    hide Apart, Share;
    var before := Upto(groups, r, k - 1);
    if r < |groups[k - 1]| {
      OnlyOwnGroup(groups, r, k - 1, i);
      ShareSnoc(before, groups[k - 1][r], groups[i]);
    } else {
      assert before + [] == before;
    }
  }

  /** Every group contributes, in its own order, exactly its first Taken elements. */
  lemma {:induction false} UptoShare<T(!new)>(groups: seq<seq<T>>, r: nat, k: nat, i: nat)
    requires Apart(groups) && k <= |groups| && i < |groups|
    ensures Share(Upto(groups, r, k), groups[i]) == groups[i][..Taken(groups, i, r, k)]
    decreases r, k
  {
    hide Apart;
    if k > 0 {
      UptoShare(groups, r, k - 1, i);
      ShareStep(groups, r, k, i);
      PrefixStep(groups, r, k, i);
    } else if r > 0 {
      UptoShare(groups, r - 1, |groups|, i);
    }
  }

  /** What a fair draw from the groups is: distinct elements, a prefix of each group, and balanced. */
  ghost predicate FairDraw<T(!new)>(out: seq<T>, groups: seq<seq<T>>, r: nat, k: nat)
  {
    && NoDuplicates(out)
    && (forall i :: 0 <= i < |groups| ==> Share(out, groups[i]) == groups[i][..Taken(groups, i, r, k)])
    && (forall i, j :: 0 <= i < |groups| && 0 <= j < |groups| && Taken(groups, i, r, k) < |groups[i]| ==>
          Taken(groups, j, r, k) <= Taken(groups, i, r, k) + 1)
  }

  lemma UptoFair<T(!new)>(groups: seq<seq<T>>, r: nat, k: nat)
    requires Apart(groups) && k <= |groups|
    ensures FairDraw(Upto(groups, r, k), groups, r, k)
  {
    hide Apart, NoDuplicates, Share;
    UptoDistinct(groups, r, k);
    forall i | 0 <= i < |groups|
      ensures Share(Upto(groups, r, k), groups[i]) == groups[i][..Taken(groups, i, r, k)]
    {
      UptoShare(groups, r, k, i);
    }
  }

  function SumTaken<T>(groups: seq<seq<T>>, n: nat, r: nat, k: nat): nat
    requires n <= |groups|
  {
    if n == 0 then 0 else SumTaken(groups, n - 1, r, k) + Taken(groups, n - 1, r, k)
  }

  lemma {:induction false} SumTakenStep<T>(groups: seq<seq<T>>, n: nat, r: nat, k: nat)
    requires n <= |groups| && 0 < k <= |groups|
    ensures SumTaken(groups, n, r, k)
         == SumTaken(groups, n, r, k - 1) + (if k - 1 < n && r < |groups[k - 1]| then 1 else 0)
  {
    if n > 0 {
      SumTakenStep(groups, n - 1, r, k);
    }
  }

  lemma {:induction false} SumTakenRound<T>(groups: seq<seq<T>>, n: nat, r: nat)
    requires n <= |groups| && r > 0
    ensures SumTaken(groups, n, r, 0) == SumTaken(groups, n, r - 1, |groups|)
  {
    if n > 0 {
      SumTakenRound(groups, n - 1, r);
    }
  }

  lemma {:induction false} SumTakenStart<T>(groups: seq<seq<T>>, n: nat)
    requires n <= |groups|
    ensures SumTaken(groups, n, 0, 0) == 0
  {
    if n > 0 {
      SumTakenStart(groups, n - 1);
    }
  }

  lemma {:induction false} UptoLength<T>(groups: seq<seq<T>>, r: nat, k: nat)
    requires k <= |groups|
    ensures |Upto(groups, r, k)| == SumTaken(groups, |groups|, r, k)
    decreases r, k
  {
    if k > 0 {
      UptoLength(groups, r, k - 1);
      SumTakenStep(groups, |groups|, r, k);
    } else if r > 0 {
      UptoLength(groups, r - 1, |groups|);
      SumTakenRound(groups, |groups|, r);
    } else {
      SumTakenStart(groups, |groups|);
    }
  }

  lemma {:induction false} SumAtLeast<T>(groups: seq<seq<T>>, n: nat, r: nat, k: nat, j: nat)
    requires n <= |groups| && r >= 1 && j < |groups| && forall i :: 0 <= i < |groups| ==> |groups[i]| >= 1
    ensures SumTaken(groups, n, r, k) >= n + (if j < n && Taken(groups, j, r, k) >= 2 then 1 else 0)
  {
    if n > 0 {
      SumAtLeast(groups, n - 1, r, k, j);
    }
  }

  /** When no more is drawn than there are groups, and none is empty, no group gives two. */
  lemma AtMostOnce<T>(groups: seq<seq<T>>, r: nat, k: nat, j: nat)
    requires k <= |groups| && j < |groups| && |Upto(groups, r, k)| <= |groups|
    requires forall i :: 0 <= i < |groups| ==> |groups[i]| >= 1
    ensures Taken(groups, j, r, k) <= 1
  {
    UptoLength(groups, r, k);
    if r >= 1 {
      SumAtLeast(groups, |groups|, r, k, j);
    }
  }

  function Total<T>(groups: seq<seq<T>>, n: nat): nat
    requires n <= |groups|
  {
    if n == 0 then 0 else Total(groups, n - 1) + |groups[n - 1]|
  }

  /** Nothing is lost: the complete interleaving has as many elements as the groups together. */
  lemma AllLength<T>(groups: seq<seq<T>>)
    ensures |All(groups)| == Total(groups, |groups|)
  {
    UptoLength(groups, Longest(groups), 0);
    SumTakenAll(groups, |groups|);
  }

  lemma {:induction false} SumTakenAll<T>(groups: seq<seq<T>>, n: nat)
    requires n <= |groups|
    ensures SumTaken(groups, n, Longest(groups), 0) == Total(groups, n)
  {
    if n > 0 {
      LongestBound(groups, n - 1);
      SumTakenAll(groups, n - 1);
    }
  }

  /** The interleaving loop. Its result is the prefix that `Upto` describes for the final round and position. */
  method Interleave<T(!new)>(groups: seq<seq<T>>, limit: int)
    returns (out: seq<T>, ghost round: nat, ghost position: nat)
    ensures position <= |groups| && out == Upto(groups, round, position)
    ensures Apart(groups) ==> FairDraw(out, groups, round, position)
    ensures |out| == Min(Max(limit, 0), Total(groups, |groups|))
    ensures |out| <= |All(groups)| && out == All(groups)[..|out|]
  {
    out, round, position := InterleaveRounds(groups, limit);
    if Apart(groups) {
      UptoFair(groups, round, position);
    }
  }

  method InterleaveRounds<T(!new)>(groups: seq<seq<T>>, limit: int)
    returns (out: seq<T>, ghost round: nat, ghost position: nat)
    ensures position <= |groups| && out == Upto(groups, round, position)
    ensures |out| == Min(Max(limit, 0), Total(groups, |groups|))
    ensures |out| <= |All(groups)| && out == All(groups)[..|out|]
  {
    AllLength(groups);
    out, round, position := [], 0, 0;
    if limit <= 0 || |groups| == 0 {
      return;
    }
    var r := 0;
    while |out| < limit
      invariant |out| <= limit && position <= |groups|
      invariant out == Upto(groups, round, position)
      invariant |out| < limit ==> out == Upto(groups, r, 0)
      decreases Longest(groups) + 1 - r
    {
      var added := false;
      var k := 0;
      while k < |groups|
        invariant k <= |groups| && |out| < limit
        invariant out == Upto(groups, r, k)
        invariant added ==> r < Longest(groups)
        invariant !added ==> forall i :: 0 <= i < k ==> r >= |groups[i]|
      {
        if r < |groups[k]| {
          LongestBound(groups, k);
          out := out + [groups[k][r]];
          added := true;
          if |out| == limit {
            k := k + 1;
            break;
          }
        }
        k := k + 1;
      }
      round, position := r, k;
      if !added {
        Exhausted(groups, r);
        UptoSaturates(groups, r, k);
        return;
      }
      r := r + 1;
    }
    if round < Longest(groups) {
      UptoMonotone(groups, round, position, Longest(groups), 0);
    } else {
      UptoSaturates(groups, round, position);
    }
  }

  /** When no group reaches round r, the longest group ended before it. */
  lemma {:induction false} Exhausted<T>(groups: seq<seq<T>>, r: nat)
    requires forall i :: 0 <= i < |groups| ==> r >= |groups[i]|
    ensures Longest(groups) <= r
  {
    if groups != [] {
      Exhausted(groups[1..], r);
    }
  }
}
