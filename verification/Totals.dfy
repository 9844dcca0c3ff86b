// Sums of a weight over a sequence.
module Totals {

  function Total<T>(xs: seq<T>, weight: T -> int): int {
    if xs == [] then 0 else weight(xs[0]) + Total(xs[1..], weight)
  }

  lemma {:induction false} TotalUpdate<T>(xs: seq<T>, i: nat, x: T, weight: T -> int)
    requires i < |xs|
    ensures Total(xs[i := x], weight) == Total(xs, weight) - weight(xs[i]) + weight(x)
    decreases |xs|
  {
    if i == 0 {
      assert xs[0 := x][1..] == xs[1..];
    } else {
      assert xs[i := x][1..] == xs[1..][i - 1 := x];
      TotalUpdate(xs[1..], i - 1, x, weight);
    }
  }

  lemma {:induction false} TotalAppend<T>(xs: seq<T>, x: T, weight: T -> int)
    ensures Total(xs + [x], weight) == Total(xs, weight) + weight(x)
    decreases |xs|
  {
    if xs == [] {
      assert [] + [x] == [x];
    } else {
      assert (xs + [x])[1..] == xs[1..] + [x];
      TotalAppend(xs[1..], x, weight);
    }
  }

  // A member weighs no more than the whole.
  lemma {:induction false} TotalMember<T>(xs: seq<T>, i: nat, weight: T -> int)
    requires i < |xs| && forall x :: x in xs ==> weight(x) >= 0
    ensures Total(xs, weight) >= weight(xs[i])
    decreases |xs|
  {
    TotalNatural(xs[1..], weight);
    if i > 0 {
      TotalMember(xs[1..], i - 1, weight);
    }
  }

  lemma {:induction false} TotalNatural<T>(xs: seq<T>, weight: T -> int)
    requires forall x :: x in xs ==> weight(x) >= 0
    ensures Total(xs, weight) >= 0
    decreases |xs|
  {
    if xs != [] {
      TotalNatural(xs[1..], weight);
    }
  }

  // A positive total has a member of positive weight.
  lemma {:induction false} TotalWitness<T>(xs: seq<T>, weight: T -> int) returns (i: nat)
    requires Total(xs, weight) > 0
    ensures i < |xs| && weight(xs[i]) > 0
    decreases |xs|
  {
    if weight(xs[0]) > 0 {
      i := 0;
    } else {
      var j := TotalWitness(xs[1..], weight);
      i := j + 1;
    }
  }

  // Totals add up when the weights do.
  lemma {:induction false} TotalSum<T>(xs: seq<T>, whole: T -> int, a: T -> int, b: T -> int)
    requires forall x :: x in xs ==> whole(x) == a(x) + b(x)
    ensures Total(xs, whole) == Total(xs, a) + Total(xs, b)
    decreases |xs|
  {
    if xs != [] {
      assert xs[0] in xs;
      TotalSum(xs[1..], whole, a, b);
    }
  }
}
