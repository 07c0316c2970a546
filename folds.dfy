/**
 * The one shape of `Array.prototype.reduce` the history components use,
 * `xs.reduce((acc, x) => acc + g(x), init)`, and the sum it computes.
 */
module Folds {

  /** `xs.reduce((acc, x) => acc + g(x), init)`: visits xs left to right, threading the accumulator. */
  function ReduceAdd<T>(g: T -> int, init: int, xs: seq<T>): int
    decreases |xs|
  {
    if xs == [] then init else ReduceAdd(g, init + g(xs[0]), xs[1..])
  }

  /** Reference definition: the sum of g over xs. */
  function Sum<T>(g: T -> int, xs: seq<T>): int
  {
    if xs == [] then 0 else g(xs[0]) + Sum(g, xs[1..])
  }

  lemma {:induction false} ReduceAddIsSum<T>(g: T -> int, init: int, xs: seq<T>)
    ensures ReduceAdd(g, init, xs) == init + Sum(g, xs)
    decreases |xs|
  {
    if xs != [] {
      ReduceAddIsSum(g, init + g(xs[0]), xs[1..]);
    }
  }

  lemma {:induction false} SumAppend<T>(g: T -> int, xs: seq<T>, ys: seq<T>)
    ensures Sum(g, xs + ys) == Sum(g, xs) + Sum(g, ys)
  {
    if xs == [] {
      assert xs + ys == ys;
    } else {
      assert (xs + ys)[1..] == xs[1..] + ys;
      SumAppend(g, xs[1..], ys);
    }
  }

  lemma {:induction false} SumNonNegative<T>(g: T -> int, xs: seq<T>)
    requires forall x :: x in xs ==> g(x) >= 0
    ensures Sum(g, xs) >= 0
  {
    if xs != [] {
      assert xs[0] in xs;
      assert forall x :: x in xs[1..] ==> x in xs;
      SumNonNegative(g, xs[1..]);
    }
  }
}
