/** Sums of per-index weights over the indices in a set. */
module Sums {

  function SumIn(weights: seq<nat>, s: set<nat>): nat {
    if weights == [] then 0
    else
      var n := |weights| - 1;
      SumIn(weights[..n], s) + if n in s then weights[n] else 0
  }

  /** The indices below `n`. */
  function FirstN(n: nat): (r: set<nat>)
    ensures forall i: nat :: i in r <==> i < n
  {
    if n == 0 then {} else FirstN(n - 1) + {n - 1}
  }

  lemma {:induction false} SumInSame(weights: seq<nat>, s: set<nat>, t: set<nat>)
    requires forall i :: 0 <= i < |weights| ==> (i in s <==> i in t)
    ensures SumIn(weights, s) == SumIn(weights, t)
  {
    if weights != [] {
      SumInSame(weights[..|weights| - 1], s, t);
    }
  }

  /** A new index adds its own weight. */
  lemma {:induction false} SumInAdd(weights: seq<nat>, s: set<nat>, i: nat)
    requires i < |weights| && i !in s
    ensures SumIn(weights, s + {i}) == SumIn(weights, s) + weights[i]
  {
    var n := |weights| - 1;
    if i == n {
      SumInSame(weights[..n], s, s + {i});
    } else {
      SumInAdd(weights[..n], s, i);
    }
  }

  /** The next index in order. */
  lemma SumInNext(weights: seq<nat>, i: nat)
    requires i < |weights|
    ensures SumIn(weights, FirstN(i + 1)) == SumIn(weights, FirstN(i)) + weights[i]
  {
    assert FirstN(i + 1) == FirstN(i) + {i};
    SumInAdd(weights, FirstN(i), i);
  }

  lemma {:induction false} SumInMonotone(weights: seq<nat>, s: set<nat>, t: set<nat>)
    requires forall i :: 0 <= i < |weights| && i in s ==> i in t
    ensures SumIn(weights, s) <= SumIn(weights, t)
  {
    if weights != [] {
      SumInMonotone(weights[..|weights| - 1], s, t);
    }
  }

  lemma {:induction false} SumInEmpty(weights: seq<nat>)
    ensures SumIn(weights, {}) == 0
  {
    if weights != [] {
      SumInEmpty(weights[..|weights| - 1]);
    }
  }

  /** A sum is zero exactly when every weight it takes in is. */
  lemma {:induction false} SumInZero(weights: seq<nat>, s: set<nat>)
    ensures SumIn(weights, s) == 0 <==> forall i :: 0 <= i < |weights| && i in s ==> weights[i] == 0
  {
    if weights != [] {
      SumInZero(weights[..|weights| - 1], s);
    }
  }

  /** Larger weights give a larger sum. */
  lemma {:induction false} SumInWeights(a: seq<nat>, b: seq<nat>, s: set<nat>)
    requires |a| == |b| && forall i :: 0 <= i < |a| ==> a[i] <= b[i]
    ensures SumIn(a, s) <= SumIn(b, s)
    ensures SumIn(a, s) == SumIn(b, s) <==> forall i :: 0 <= i < |a| && i in s ==> a[i] == b[i]
  {
    if a != [] {
      SumInWeights(a[..|a| - 1], b[..|b| - 1], s);
    }
  }
}
