/** Small vocabulary shared by every module: optional values, results, clock readings and string order. */
module Base {

  /** Clock readings in milliseconds. Zero stands for the unset time value. */
  type Time = nat

  const ZERO_TIME: Time := 0

  datatype Option<+T> = None | Some(value: T)

  datatype Result<+R, +E> = Success(value: R) | Failure(error: E)

  function Min(a: int, b: int): int { if a <= b then a else b }

  function Max(a: int, b: int): int { if a >= b then a else b }

  /** Strict lexicographic order, as string comparison defines it. */
  predicate StringLess(a: string, b: string)
  {
    b != [] && (a == [] || a[0] < b[0] || (a[0] == b[0] && StringLess(a[1..], b[1..])))
  }

  lemma {:induction false} StringLessAsymmetric(a: string, b: string)
    ensures !(StringLess(a, b) && StringLess(b, a))
  {
    if a != [] && b != [] {
      StringLessAsymmetric(a[1..], b[1..]);
    }
  }

  lemma {:induction false} StringLessTotal(a: string, b: string)
    ensures a == b || StringLess(a, b) || StringLess(b, a)
  {
    if a != [] && b != [] {
      StringLessTotal(a[1..], b[1..]);
      assert a == [a[0]] + a[1..] && b == [b[0]] + b[1..];
    }
  }

  lemma {:induction false} StringLessTransitive(a: string, b: string, c: string)
    requires StringLess(a, b) && StringLess(b, c)
    ensures StringLess(a, c)
  {
    if a != [] && a[0] == b[0] == c[0] {
      StringLessTransitive(a[1..], b[1..], c[1..]);
    }
  }

  /** The latest reading of a finite set, or None for the empty set. */
  ghost function Latest(times: set<Time>): (r: Option<Time>)
    ensures r.None? <==> times == {}
    ensures r.Some? ==> r.value in times && forall t :: t in times ==> t <= r.value
  {
    if times == {} then None else
      var t :| t in times;
      var rest := Latest(times - {t});
      assert times == (times - {t}) + {t};
      if rest.None? || rest.value < t then Some(t) else rest
  }

  lemma LatestUnique(times: set<Time>, r: Option<Time>)
    requires r.None? <==> times == {}
    requires r.Some? ==> r.value in times && forall t :: t in times ==> t <= r.value
    ensures r == Latest(times)
  {
    if r.Some? {
      assert r.value <= Latest(times).value <= r.value;
    }
  }

  /** The earliest reading of a finite set, or None for the empty set. */
  ghost function Earliest(times: set<Time>): (r: Option<Time>)
    ensures r.None? <==> times == {}
    ensures r.Some? ==> r.value in times && forall t :: t in times ==> r.value <= t
  {
    if times == {} then None else
      var t :| t in times;
      var rest := Earliest(times - {t});
      assert times == (times - {t}) + {t};
      if rest.None? || t < rest.value then Some(t) else rest
  }

  lemma EarliestUnique(times: set<Time>, r: Option<Time>)
    requires r.None? <==> times == {}
    requires r.Some? ==> r.value in times && forall t :: t in times ==> r.value <= t
    ensures r == Earliest(times)
  {
    if r.Some? {
      assert r.value <= Earliest(times).value <= r.value;
    }
  }

  lemma SubsetCard<T>(a: set<T>, b: set<T>)
    requires a <= b
    ensures |a| <= |b|
  {
    assert b == a + (b - a);
  }
}
