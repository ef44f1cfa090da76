/** Sums over sequences of reals, and the running mean. */
module RealSums {

  function Min(a: real, b: real): real { if a <= b then a else b }

  function Max(a: real, b: real): real { if a >= b then a else b }

  function Sum(s: seq<real>): real {
    if s == [] then 0.0 else Sum(s[..|s| - 1]) + s[|s| - 1]
  }

  lemma {:induction false} SumSnoc(s: seq<real>, x: real)
    ensures Sum(s + [x]) == Sum(s) + x
  {
    assert (s + [x])[..|s|] == s;
  }

  /** The sum of a sequence cut off at `t`. */
  function ClippedSum(s: seq<real>, t: real): real {
    if s == [] then 0.0 else ClippedSum(s[..|s| - 1], t) + Min(s[|s| - 1], t)
  }

  lemma {:induction false} ClippedSnoc(s: seq<real>, x: real, t: real)
    ensures ClippedSum(s + [x], t) == ClippedSum(s, t) + Min(x, t)
  {
    assert (s + [x])[..|s|] == s;
  }

  function Times(n: int, x: real): real { n as real * x }

  /** Moving the cut from `t` to `t'` lets the elements beyond it grow, and no others. */
  lemma {:induction false} ClippedGrows(s: seq<real>, k: nat, t: real, t': real)
    requires k <= |s| && t <= t'
    requires forall i :: 0 <= i < k ==> s[i] <= t
    requires forall i :: k <= i < |s| ==> t' <= s[i]
    ensures ClippedSum(s, t') == ClippedSum(s, t) + Times(|s| - k, t' - t)
  {
    if |s| > k {
      ClippedGrows(s[..|s| - 1], k, t, t');
    } else if s != [] {
      ClippedGrows(s[..|s| - 1], k - 1, t, t');
    }
  }

  function Product(x: real, k: real): real { x * k }

  lemma {:induction false} ProductAdds(x: real, y: real, k: real)
    ensures Product(x + y, k) == Product(x, k) + Product(y, k) && Product(0.0, k) == 0.0
  {
  }

  lemma {:induction false} ProductCommutes(x: real, y: real)
    ensures Product(x, y) == Product(y, x)
  {
  }

  lemma {:induction false} ProductOne(x: real)
    ensures Product(1.0, x) == x
  {
  }

  lemma {:induction false} NonNegative(x: real, k: real)
    requires x >= 0.0 && k >= 0.0
    ensures Product(x, k) >= 0.0
  {
  }

  /** Stats::mean: the running mean of `n` values, the last of which is `x`. */
  function RunningMean(n: int, mean: real, x: real): real
    requires n != 0
  {
    mean + (x - mean) / n as real
  }

  /** The running mean turns the mean of n values into the mean of n+1. */
  lemma {:induction false} RunningMeanIsMean(n: nat, mean: real, x: real, sum: real)
    requires Times(n, mean) == sum
    ensures Times(n + 1, RunningMean(n + 1, mean, x)) == sum + x
  {
    var m := (n + 1) as real;
    assert m * ((x - mean) / m) == x - mean;
    assert m * mean == sum + mean;
  }

  lemma {:induction false} QuotientInUnit(a: real, b: real)
    requires 0.0 <= a <= b && b > 0.0
    ensures 0.0 <= a / b <= 1.0
  {
  }
}
