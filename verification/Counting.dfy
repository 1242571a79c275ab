/** How often a buffer name occurs in a list, and what that says about the list's length. */
module Counting {

  /** How often `x` occurs in `xs`. */
  ghost function Occ(xs: seq<nat>, x: nat): nat {
    if xs == [] then 0 else Occ(xs[..|xs| - 1], x) + (if xs[|xs| - 1] == x then 1 else 0)
  }

  lemma OccSnoc(xs: seq<nat>, y: nat, x: nat)
    ensures Occ(xs + [y], x) == Occ(xs, x) + (if y == x then 1 else 0)
  {
    assert (xs + [y])[..|xs|] == xs;
  }

  lemma OccOne(y: nat, x: nat)
    ensures Occ([y], x) == if y == x then 1 else 0
  {
    OccSnoc([], y, x);
    assert [] + [y] == [y];
  }

  lemma {:induction false} OccFirst(xs: seq<nat>, x: nat)
    requires xs != []
    ensures Occ(xs, x) == Occ(xs[1..], x) + (if xs[0] == x then 1 else 0)
  {
    var n := |xs| - 1;
    if n > 0 {
      OccFirst(xs[..n], x);
      assert xs[..n][1..] == xs[1..][..n - 1];
    }
  }

  lemma {:induction false} OccIn(xs: seq<nat>, i: nat)
    requires i < |xs|
    ensures Occ(xs, xs[i]) >= 1
  {
    var n := |xs| - 1;
    if i < n { OccIn(xs[..n], i); }
  }

  lemma {:induction false} OccTwice(xs: seq<nat>, i: nat, j: nat)
    requires i < j < |xs| && xs[i] == xs[j]
    ensures Occ(xs, xs[i]) >= 2
  {
    var n := |xs| - 1;
    if j < n { OccTwice(xs[..n], i, j); } else { OccIn(xs[..n], i); }
  }

  lemma {:induction false} OccConcat(xs: seq<nat>, ys: seq<nat>, x: nat)
    ensures Occ(xs + ys, x) == Occ(xs, x) + Occ(ys, x)
  {
    if ys == [] {
      assert xs + ys == xs;
    } else {
      var n := |ys| - 1;
      OccConcat(xs, ys[..n], x);
      assert (xs + ys)[..|xs| + n] == xs + ys[..n];
    }
  }

  ghost function Elements(xs: seq<nat>): set<nat> { set y | y in xs }

  lemma {:induction false} DistinctCount(xs: seq<nat>)
    requires forall y: nat :: Occ(xs, y) <= 1
    ensures |Elements(xs)| == |xs|
  {
    var n := |xs| - 1;
    if n >= 0 {
      var ys := xs[..n];
      assert xs == ys + [xs[n]];
      forall y: nat ensures Occ(ys, y) <= 1 {
        OccSnoc(ys, xs[n], y);
        assert Occ(xs, y) <= 1;
      }
      DistinctCount(ys);
      assert Occ(xs, xs[n]) <= 1;
      if i :| 0 <= i < n && ys[i] == xs[n] { OccIn(ys, i); }
      assert Elements(xs) == Elements(ys) + {xs[n]};
    }
  }

  ghost function Below(n: nat): (b: set<nat>)
    ensures |b| == n && forall x: nat :: x in b <==> x < n
  {
    if n == 0 then {} else Below(n - 1) + {n - 1}
  }

  /** A pool buffer that is not free leaves a slot on the free stack for its return. */
  lemma FreeFits(free: seq<nat>, n: nat, x: nat)
    requires forall y: nat :: y < n ==> Occ(free, y) <= 1
    requires forall i :: 0 <= i < |free| ==> free[i] < n
    requires x < n && Occ(free, x) == 0
    ensures |free| < n
  {
    forall y: nat ensures Occ(free, y) <= 1 {
      if y >= n { OccAbsent(free, y); }
    }
    DistinctCount(free);
    forall i: nat | i < |free| ensures free[i] != x { OccIn(free, i); }
    SubsetSmaller(Elements(free), Below(n), x);
  }

  lemma {:induction false} OccAbsent(xs: seq<nat>, y: nat)
    requires forall i :: 0 <= i < |xs| ==> xs[i] != y
    ensures Occ(xs, y) == 0
  {
    if xs != [] { OccAbsent(xs[..|xs| - 1], y); }
  }

  lemma SubsetSmaller(a: set<nat>, b: set<nat>, x: nat)
    requires a <= b && x in b && x !in a
    ensures |a| < |b|
  {
    assert |b - a| + |a| == |b| by { assert a + (b - a) == b; }
    assert x in b - a;
  }
}
