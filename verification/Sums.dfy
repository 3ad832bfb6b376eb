/** Sums over sequences of numbers. */
module Sums {

  function Sum(xs: seq<nat>): nat {
    if xs == [] then 0 else xs[0] + Sum(xs[1..])
  }

  lemma {:induction false} SumUpdate(xs: seq<nat>, i: nat, v: nat)
    requires i < |xs|
    ensures Sum(xs[i := v]) + xs[i] == Sum(xs) + v
  {
    if i == 0 {
      assert xs[0 := v][1..] == xs[1..];
    } else {
      SumUpdate(xs[1..], i - 1, v);
      assert xs[i := v][1..] == xs[1..][i - 1 := v];
    }
  }

  lemma {:induction false} SumBounds(xs: seq<nat>, i: nat)
    requires i < |xs|
    ensures xs[i] <= Sum(xs)
  {
    if i > 0 {
      SumBounds(xs[1..], i - 1);
    }
  }

  lemma {:induction false} SumTwo(xs: seq<nat>, i: nat, j: nat)
    requires i < j < |xs|
    ensures xs[i] + xs[j] <= Sum(xs)
  {
    if i == 0 {
      SumBounds(xs[1..], j - 1);
    } else {
      SumTwo(xs[1..], i - 1, j - 1);
    }
  }

  lemma {:induction false} SumLeq(xs: seq<nat>, ys: seq<nat>)
    requires |xs| == |ys| && forall i :: 0 <= i < |xs| ==> xs[i] <= ys[i]
    ensures Sum(xs) <= Sum(ys)
  {
    if xs != [] {
      SumLeq(xs[1..], ys[1..]);
    }
  }

  lemma {:induction false} SumZero(xs: seq<nat>)
    ensures Sum(xs) == 0 <==> forall i :: 0 <= i < |xs| ==> xs[i] == 0
  {
    if xs != [] {
      SumZero(xs[1..]);
      assert forall i :: 0 < i < |xs| ==> xs[i] == xs[1..][i - 1];
      assert forall i :: 0 <= i < |xs[1..]| ==> xs[1..][i] == xs[i + 1];
    }
  }

  /** A positive sum has a positive term. */
  lemma {:induction false} SumPositive(xs: seq<nat>)
    requires Sum(xs) > 0
    ensures exists i :: 0 <= i < |xs| && xs[i] > 0
  {
    if xs[0] == 0 {
      SumPositive(xs[1..]);
      var i :| 0 <= i < |xs[1..]| && xs[1..][i] > 0;
      assert xs[i + 1] > 0;
    }
  }
}
