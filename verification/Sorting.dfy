/** Sorting by a strict order, the way the program sorts its slices: the sorted result is unique. */
module Sorting {
  import opened Base

  ghost predicate StrictOrder<T(!new)>(less: (T, T) -> bool, domain: set<T>)
  {
    && (forall a, b :: a in domain && b in domain && a != b ==> less(a, b) != less(b, a))
    && (forall a :: a in domain ==> !less(a, a))
    && (forall a, b, c :: a in domain && b in domain && c in domain && less(a, b) && less(b, c) ==> less(a, c))
  }

  ghost predicate Sorted<T>(s: seq<T>, less: (T, T) -> bool)
  {
    forall i, j :: 0 <= i < j < |s| ==> less(s[i], s[j])
  }

  ghost predicate NoDuplicates<T>(s: seq<T>)
  {
    forall i, j :: 0 <= i < j < |s| ==> s[i] != s[j]
  }

  ghost function Members<T>(s: seq<T>): set<T> { set x | x in s }

  lemma NoMembers<T>(s: seq<T>)
    ensures Members(s) == {} <==> s == []
  {
    if s != [] {
      assert s[0] in Members(s);
    }
  }

  lemma Nothing<T>()
    ensures Members<T>([]) == {} && NoDuplicates<T>([])
  {
  }

  lemma OneMore<T>(s: seq<T>, x: T)
    ensures Members(s + [x]) == Members(s) + {x}
    ensures NoDuplicates(s) && x !in Members(s) ==> NoDuplicates(s + [x])
  {
    if NoDuplicates(s) && x !in Members(s) {
      forall i | 0 <= i < |s|
        ensures s[i] != x
      {
        assert s[i] in Members(s);
      }
    }
  }

  /** Two sorted sequences with the same members are the same sequence. */
  lemma {:induction false} SortedUnique<T(!new)>(s: seq<T>, t: seq<T>, less: (T, T) -> bool)
    requires StrictOrder(less, Members(s))
    requires Sorted(s, less) && Sorted(t, less) && Members(s) == Members(t)
    ensures s == t
    decreases |s|
  {
    if s == [] || t == [] {
      NoMembers(s);
      NoMembers(t);
    } else {
      assert s[0] in Members(t) && t[0] in Members(s);
      var i :| 0 <= i < |t| && t[i] == s[0];
      var j :| 0 <= j < |s| && s[j] == t[0];
      assert s[0] == t[0];
      TailMembers(s, less);
      TailMembers(t, less);
      SortedUnique(s[1..], t[1..], less);
      assert s == [s[0]] + s[1..] && t == [t[0]] + t[1..];
    }
  }

  lemma TailMembers<T(!new)>(s: seq<T>, less: (T, T) -> bool)
    requires s != [] && Sorted(s, less) && StrictOrder(less, Members(s))
    ensures Members(s[1..]) == Members(s) - {s[0]}
  {
    forall x | x in s[1..]
      ensures x != s[0]
    {
      var i :| 0 <= i < |s[1..]| && s[1..][i] == x;
      assert less(s[0], s[i + 1]);
    }
    assert s == [s[0]] + s[1..];
  }

  lemma InsertedSorted<T(!new)>(s: seq<T>, i: nat, x: T, less: (T, T) -> bool)
    requires i <= |s| && Sorted(s, less) && StrictOrder(less, Members(s) + {x})
    requires (forall j :: 0 <= j < i ==> less(s[j], x)) && (i < |s| ==> less(x, s[i]))
    ensures Sorted(s[..i] + [x] + s[i..], less)
  {
    forall j | i <= j < |s|
      ensures less(x, s[j])
    {
      assert s[i] in Members(s) && s[j] in Members(s);
    }
    var r := s[..i] + [x] + s[i..];
    forall a, b | 0 <= a < b < |r|
      ensures less(r[a], r[b])
    {
      assert r[a] == if a < i then s[a] else if a == i then x else s[a - 1];
      assert r[b] == if b < i then s[b] else if b == i then x else s[b - 1];
    }
  }

  method Insert<T(==, !new)>(s: seq<T>, x: T, less: (T, T) -> bool) returns (r: seq<T>)
    requires StrictOrder(less, Members(s) + {x}) && Sorted(s, less) && x !in s
    ensures Sorted(r, less) && Members(r) == Members(s) + {x} && |r| == |s| + 1
  {
    hide Sorted;
    var i := 0;
    while i < |s| && less(s[i], x)
      invariant i <= |s|
      invariant forall j :: 0 <= j < i ==> less(s[j], x)
    {
      i := i + 1;
    }
    if i < |s| {
      assert s[i] in Members(s) + {x} && x in Members(s) + {x} && s[i] != x;
    }
    r := s[..i] + [x] + s[i..];
    InsertedSorted(s, i, x, less);
    assert s == s[..i] + s[i..];
  }

  method Sort<T(==, !new)>(items: seq<T>, less: (T, T) -> bool) returns (r: seq<T>)
    requires NoDuplicates(items) && StrictOrder(less, Members(items))
    ensures Sorted(r, less) && Members(r) == Members(items) && |r| == |items|
  {
    r := [];
    for i := 0 to |items|
      invariant Sorted(r, less) && Members(r) == Members(items[..i]) && |r| == i
    {
      assert items[..i + 1] == items[..i] + [items[i]];
      assert Members(items[..i + 1]) <= Members(items);
      assert items[i] !in Members(items[..i]);
      SubOrder(less, Members(items), Members(r) + {items[i]});
      r := Insert(r, items[i], less);
    }
    assert items[..|items|] == items;
  }

  lemma SubOrder<T(!new)>(less: (T, T) -> bool, domain: set<T>, part: set<T>)
    requires StrictOrder(less, domain) && part <= domain
    ensures StrictOrder(less, part)
  {
  }

  // ---- The least n members of a set ----

  /** The least n members of the pool, in order. */
  ghost predicate Least<T(!new)>(picks: seq<T>, pool: set<T>, less: (T, T) -> bool, n: nat)
  {
    && Sorted(picks, less) && Members(picks) <= pool && |picks| == Min(n, |pool|)
    && forall e, p :: e in pool && e !in picks && p in picks ==> less(p, e)
  }

  lemma SortedDistinct<T(!new)>(s: seq<T>, less: (T, T) -> bool, pool: set<T>)
    requires Sorted(s, less) && StrictOrder(less, pool) && Members(s) <= pool
    ensures forall i, j :: 0 <= i < j < |s| ==> s[i] != s[j]
    ensures |Members(s)| == |s|
  {
    forall i, j | 0 <= i < j < |s|
      ensures s[i] != s[j]
    {
      assert less(s[i], s[j]);
      assert s[i] in Members(s);
    }
    MembersCard(s);
  }

  lemma {:induction false} MembersCard<T>(s: seq<T>)
    requires forall i, j :: 0 <= i < j < |s| ==> s[i] != s[j]
    ensures |Members(s)| == |s|
  {
    if s != [] {
      var init, last := s[..|s| - 1], s[|s| - 1];
      MembersCard(init);
      assert s == init + [last];
      assert Members(s) == Members(init) + {last};
      assert last !in Members(init);
    }
  }

  /** Cutting a sorted pool after n members leaves the least n. */
  lemma PrefixLeast<T(!new)>(all: seq<T>, less: (T, T) -> bool, pool: set<T>, n: nat)
    requires Sorted(all, less) && StrictOrder(less, pool) && Members(all) == pool
    ensures Least(all[..Min(n, |all|)], pool, less, n)
  {
    hide StrictOrder;
    SortedDistinct(all, less, pool);
    var picks := all[..Min(n, |all|)];
    assert forall i :: 0 <= i < |picks| ==> picks[i] == all[i];
    assert forall e :: e in picks ==> e in Members(all);
    forall e, p | e in pool && e !in picks && p in picks
      ensures less(p, e)
    {
      assert e in Members(all);
      var i :| 0 <= i < |all| && all[i] == e;
      var j :| 0 <= j < |picks| && picks[j] == p;
      assert i >= |picks|;
    }
  }
}
