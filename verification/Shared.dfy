/** Small datatypes used by every module. */
module Shared {
  datatype Option<+T> = None | Some(value: T)
}

/** Division facts the solver does not find by itself. */
module Division {
  lemma UniqueQuotient(d: nat, a: int, b: int, r: nat, s: nat)
    requires r < d && s < d && d * a + r == d * b + s
    ensures a == b && r == s
  {
    assert d * (a - b) == d * a - d * b;
    AtLeastOnce(d, a - b);
    AtLeastOnce(d, b - a);
    assert d * (b - a) == -(d * (a - b));
  }

  lemma AtLeastOnce(d: nat, n: int)
    ensures n >= 1 ==> d * n >= d
  { }

  lemma QuotientOf(d: nat, k: nat, m: nat)
    requires m < d
    ensures (d * k + m) / d == k && (d * k + m) % d == m
  {
    var x := d * k + m;
    assert x == d * (x / d) + x % d;
    UniqueQuotient(d, x / d, k, x % d, m);
  }
}

/** Counting in sequences. */
module Counting {
  /** Distinct elements of a set are no more than the set has. */
  lemma {:induction false} DistinctInSet<T>(xs: seq<T>, s: set<T>)
    requires forall i :: 0 <= i < |xs| ==> xs[i] in s
    requires forall i, j :: 0 <= i < j < |xs| ==> xs[i] != xs[j]
    ensures |xs| <= |s|
  {
    if xs != [] {
      var last := xs[|xs| - 1];
      DistinctInSet(xs[..|xs| - 1], s - {last});
    }
  }

  /** A subset is no larger. */
  lemma {:induction false} SubsetSize<T>(a: set<T>, b: set<T>)
    requires a <= b
    ensures |a| <= |b|
    decreases |a|
  {
    if a != {} {
      var x :| x in a;
      SubsetSize(a - {x}, b - {x});
    }
  }

  /** A list that holds all of a set is at least as long. */
  lemma {:induction false} SetWithin<T>(s: set<T>, xs: seq<T>)
    requires forall x :: x in s ==> x in xs
    ensures |s| <= |xs|
    decreases |xs|
  {
    if xs != [] {
      var last := xs[|xs| - 1];
      SetWithin(s - {last}, xs[..|xs| - 1]);
    } else {
      assert s == {};
    }
  }

  function Count<T(==)>(xs: seq<T>, x: T): nat {
    if xs == [] then 0 else Count(xs[..|xs| - 1], x) + (if xs[|xs| - 1] == x then 1 else 0)
  }

  lemma CountSnoc<T>(xs: seq<T>, y: T, x: T)
    ensures Count(xs + [y], x) == Count(xs, x) + (if y == x then 1 else 0)
  {
    assert (xs + [y])[..|xs|] == xs;
  }

  function Positions<T(==)>(xs: seq<T>, x: T): set<nat> {
    set i: nat | 0 <= i < |xs| && xs[i] == x
  }

  lemma {:induction false} CountIsCardinality<T>(xs: seq<T>, x: T)
    ensures |Positions(xs, x)| == Count(xs, x)
  {
    if xs != [] {
      var n := |xs| - 1;
      CountIsCardinality(xs[..n], x);
      assert Positions(xs, x) == if xs[n] == x then Positions(xs[..n], x) + {n} else Positions(xs[..n], x);
    }
  }
}
