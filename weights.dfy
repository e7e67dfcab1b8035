/** The weight vector `optimize_appointments` hands to the search
    (clinic/common.py:141-146): a Fibonacci prefix, reversed, so that
    shifting an earlier appointment costs at least as much as shifting a
    later one. */
module WeightVector {

  function Fib(i: nat): (r: int)
    ensures r >= 1
  {
    if i < 2 then 1 else Fib(i - 1) + Fib(i - 2)
  }

  function Max(a: int, b: int): int {
    if a < b then b else a
  }

  /** The weights for `n` unfinished appointments: the first
      `max(2, n)` Fibonacci numbers, largest first. */
  function Weights(n: nat): (w: seq<int>)
    ensures |w| == Max(2, n)
  {
    var m := Max(2, n);
    seq(m, i requires 0 <= i < m => Fib(m - 1 - i))
  }

  lemma {:induction false} FibMonotone(i: nat, j: nat)
    requires i <= j
    ensures Fib(i) <= Fib(j)
    decreases j - i
  {
    if i < j {
      FibMonotone(i, j - 1);
      if j >= 2 {
        assert Fib(j) == Fib(j - 1) + Fib(j - 2);
      }
    }
  }

  /** Every weight is positive, earlier weights are never smaller than later
      ones, the last two are 1, and each earlier weight is the sum of the
      two that follow it. */
  lemma WeightsShape(n: nat)
    ensures forall i :: 0 <= i < |Weights(n)| ==> Weights(n)[i] >= 1
    ensures forall i, j :: 0 <= i <= j < |Weights(n)| ==> Weights(n)[i] >= Weights(n)[j]
    ensures Weights(n)[|Weights(n)| - 1] == 1 && Weights(n)[|Weights(n)| - 2] == 1
    ensures forall i :: 0 <= i < |Weights(n)| - 2 ==>
      Weights(n)[i] == Weights(n)[i + 1] + Weights(n)[i + 2]
  {
    var w := Weights(n);
    assert forall i :: 0 <= i < |w| ==> w[i] == Fib(|w| - 1 - i);
    forall i, j | 0 <= i <= j < |w|
      ensures w[i] >= w[j]
    {
      FibMonotone(|w| - 1 - j, |w| - 1 - i);
    }
  }

  /** Builds `[1, 1]`, appends the sum of the two entries `_i` and `_i + 1`
      once for every unfinished appointment beyond the second, and
      reverses the list. */
  method BuildWeights(n: nat) returns (w: seq<int>)
    ensures w == Weights(n)
  {
    var forward := [1, 1];
    var extra := if n > 2 then n - 2 else 0;
    var i := 0;
    while i < extra
      invariant 0 <= i <= extra
      invariant |forward| == i + 2
      invariant forall j :: 0 <= j < |forward| ==> forward[j] == Fib(j)
    {
      forward := forward + [forward[i] + forward[i + 1]];
      i := i + 1;
    }
    w := seq(|forward|, j requires 0 <= j < |forward| => forward[|forward| - 1 - j]);
  }
}
