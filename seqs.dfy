/** Python list slicing and summing used by the indexer's caps and totals. */
module Seqs {

  /** `s[:n]` for a non-negative `n`. */
  function First<T>(s: seq<T>, n: nat): (r: seq<T>)
    ensures |r| == if |s| <= n then |s| else n
    ensures r == s[..|r|]
  {
    if |s| <= n then s else s[..n]
  }

  /** `min(a, b)`. */
  function Min(a: nat, b: nat): nat {
    if a <= b then a else b
  }

  /** `sum(xs)`. */
  function Sum(xs: seq<nat>): nat {
    if xs == [] then 0 else Sum(xs[..|xs| - 1]) + xs[|xs| - 1]
  }

  /** A sum over a concatenation is the sum of the two sums. */
  lemma {:induction false} SumAppend(xs: seq<nat>, ys: seq<nat>)
    ensures Sum(xs + ys) == Sum(xs) + Sum(ys)
    decreases |ys|
  {
    if ys == [] {
      assert xs + ys == xs;
    } else {
      assert (xs + ys)[..|xs + ys| - 1] == xs + ys[..|ys| - 1];
      SumAppend(xs, ys[..|ys| - 1]);
    }
  }
}
