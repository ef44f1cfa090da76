/** Running mean and variance by Welford's method. */
module Statistics {
  import opened RealSums

  /** The fields of OnlineStats. */
  datatype Accumulator = Accumulator(n: nat, oldM: real, newM: real, oldS: real, newS: real)

  function Added(a: Accumulator, x: real): Accumulator {
    var n := a.n + 1;
    if n == 1 then a.(n := 1, oldM := x, oldS := 0.0)
    else
      var newM := RunningMean(n, a.oldM, x);
      var newS := a.oldS + Product(x - a.oldM, x - newM);
      Accumulator(n, newM, newM, newS, newS)
  }

  function MeanOf(a: Accumulator): real {
    if a.n > 1 then a.newM else if a.n == 1 then a.oldM else 0.0
  }

  function VarianceOf(a: Accumulator): real {
    if a.n > 1 then a.newS / (a.n - 1) as real else 0.0
  }

  function Square(x: real): real { x * x }

  /** The sum of squared deviations from `m`. */
  function Deviation(s: seq<real>, m: real): real {
    if s == [] then 0.0 else Deviation(s[..|s| - 1], m) + Square(s[|s| - 1] - m)
  }

  /** The accumulator stands for the values pushed since it was created or cleared. */
  ghost predicate Represents(a: Accumulator, log: seq<real>) {
    && a.n == |log|
    && (a.n >= 1 ==> Times(a.n, a.oldM) == Sum(log) && a.oldS == Deviation(log, a.oldM))
    && (a.n >= 2 ==> a.newM == a.oldM && a.newS == a.oldS)
  }

  /** How the sum of squared deviations of `k` values with the given sum changes when the centre
      moves from `m` to `m'`. */
  function Shift(k: real, sum: real, m: real, m': real): real {
    2.0 * (m - m') * (sum - k * m) + k * Square(m - m')
  }

  lemma {:induction false} DeviationShift(s: seq<real>, m: real, m': real)
    ensures Deviation(s, m') == Deviation(s, m) + Shift(|s| as real, Sum(s), m, m')
  {
    hide Square, Shift;
    if s == [] {
      NoShift(m, m');
    } else {
      var n, x := |s| - 1, s[|s| - 1];
      DeviationShift(s[..n], m, m');
      ShiftStep(x, m, m', Sum(s[..n]), n as real);
    }
  }

  lemma {:induction false} NoShift(m: real, m': real)
    ensures Shift(0.0, 0.0, m, m') == 0.0
  {
  }

  lemma {:induction false} ShiftStep(x: real, m: real, m': real, sum: real, k: real)
    ensures Shift(k, sum, m, m') + Square(x - m') == Square(x - m) + Shift(k + 1.0, sum + x, m, m')
  {
    var d := m - m';
    assert Square(x - m') == Square(x - m) + 2.0 * d * (x - m) + Square(d) by {
      assert x - m' == (x - m) + d;
    }
    assert 2.0 * d * (sum + x - (k + 1.0) * m) == 2.0 * d * (sum - k * m) + 2.0 * d * (x - m);
    assert (k + 1.0) * Square(d) == k * Square(d) + Square(d);
  }

  /** Welford's step, in terms of the change of the mean. */
  lemma {:induction false} WelfordStep(n: real, delta: real)
    ensures n * Square(delta) + Square(n * delta) == ((n + 1.0) * delta) * (n * delta)
  {
  }

  /** A push keeps what the accumulator stands for. */
  lemma {:induction false} PushKeeps(a: Accumulator, log: seq<real>, x: real)
    requires Represents(a, log)
    ensures Represents(Added(a, x), log + [x])
  {
    hide RunningMean, Times, Square, Deviation;
    var n, a' := |log|, Added(a, x);
    SumSnoc(log, x);
    if n == 0 {
      SingleLog(log, x);
    } else {
      RunningMeanIsMean(n, a.oldM, x, Sum(log));
      DeviationSnoc(log, x, a'.oldM);
      MeanStep(n, a.oldM, x, a'.oldM);
      DeviationAtMean(log, a.oldM, a'.oldM);
      var delta := a'.oldM - a.oldM;
      WelfordStep(n as real, delta);
      SquareNegated(delta);
      assert (x - a.oldM) * (x - a'.oldM) == ((n as real + 1.0) * delta) * (n as real * delta);
    }
  }

  lemma {:induction false} SingleLog(log: seq<real>, x: real)
    requires log == []
    ensures Times(1, x) == Sum(log + [x]) && Deviation(log + [x], x) == 0.0
  {
    SumSnoc(log, x);
    DeviationSnoc(log, x, x);
  }

  lemma {:induction false} DeviationSnoc(log: seq<real>, x: real, m: real)
    ensures Deviation(log + [x], m) == Deviation(log, m) + Square(x - m)
  {
    assert (log + [x])[..|log|] == log;
  }

  lemma {:induction false} SquareNegated(d: real)
    ensures Square(-d) == Square(d)
  {
  }

  lemma {:induction false} MeanStep(n: nat, m: real, x: real, m': real)
    requires n >= 1 && m' == RunningMean(n + 1, m, x)
    ensures x - m == (n as real + 1.0) * (m' - m) && x - m' == n as real * (m' - m)
  {
    var k := n as real + 1.0;
    assert k * ((x - m) / k) == x - m;
  }

  lemma {:induction false} DeviationAtMean(log: seq<real>, m: real, m': real)
    requires Times(|log|, m) == Sum(log)
    ensures Deviation(log, m') == Deviation(log, m) + |log| as real * Square(m - m')
  {
    hide Deviation, Square, Sum;
    DeviationShift(log, m, m');
  }

  /** The mean is the arithmetic mean, and n-1 times the variance the sum of squared deviations
      from it. */
  lemma {:induction false} WelfordCorrect(a: Accumulator, log: seq<real>)
    requires Represents(a, log)
    ensures log != [] ==> Times(|log|, MeanOf(a)) == Sum(log)
    ensures |log| >= 2 ==> Times(|log| - 1, VarianceOf(a)) == Deviation(log, MeanOf(a))
  {
    if |log| >= 2 {
      DividedBack(a.newS, (|log| - 1) as real);
    }
  }

  lemma {:induction false} DividedBack(s: real, n: real)
    requires n > 0.0
    ensures n * (s / n) == s
  {
  }

  /** The mean of values in a range stays in the range. */
  lemma {:induction false} MeanStaysBetween(a: Accumulator, x: real, lo: real, hi: real)
    requires lo <= x <= hi && (a.n >= 1 ==> lo <= a.oldM <= hi)
    requires a.n >= 2 ==> a.newM == a.oldM
    ensures lo <= Added(a, x).oldM <= hi && MeanOf(Added(a, x)) == Added(a, x).oldM
    ensures Added(a, x).n >= 2 ==> Added(a, x).newM == Added(a, x).oldM
  {
    hide RunningMean;
    if a.n >= 1 { Between(a.n + 1, a.oldM, x, lo, hi); }
  }

  lemma {:induction false} Between(n: nat, m: real, x: real, lo: real, hi: real)
    requires n >= 1 && lo <= m <= hi && lo <= x <= hi
    ensures lo <= RunningMean(n, m, x) <= hi
  {
    var k := n as real;
    var d := (x - m) / k;
    assert k * d == x - m;
    if x >= m {
      assert 0.0 <= d;
      assert (k - 1.0) * d >= 0.0;
    } else {
      assert d <= 0.0;
      assert (k - 1.0) * (-d) >= 0.0;
    }
  }

  class OnlineStats {
    var n: nat
    var oldM: real
    var newM: real
    var oldS: real
    var newS: real
    ghost var log: seq<real>

    ghost function Fields(): Accumulator
      reads this
    {
      Accumulator(n, oldM, newM, oldS, newS)
    }

    ghost predicate Valid()
      reads this
    {
      Represents(Fields(), log)
    }

    constructor ()
      ensures Valid() && log == []
    {
      n := 0;
      log := [];
    }

    method Clear()
      modifies this
      ensures Valid() && log == []
    {
      n := 0;
      log := [];
    }

    method Push(x: real)
      requires Valid()
      modifies this
      ensures Valid() && log == old(log) + [x] && Fields() == Added(old(Fields()), x)
    {
      hide Represents, RunningMean, Product;
      PushKeeps(Fields(), log, x);
      n := n + 1;
      if n == 1 {
        oldM := x;
        oldS := 0.0;
      } else {
        newM := RunningMean(n, oldM, x);
        newS := oldS + Product(x - oldM, x - newM);
        oldM := newM;
        oldS := newS;
      }
      log := log + [x];
    }

    method Mean() returns (mean: real)
      requires Valid()
      ensures log != [] ==> Times(|log|, mean) == Sum(log)
      ensures log == [] ==> mean == 0.0
    {
      WelfordCorrect(Fields(), log);
      mean := 0.0;
      if n > 1 {
        mean := newM;
      } else if n == 1 {
        mean := oldM;
      }
    }

    method Variance() returns (variance: real)
      requires Valid()
      ensures |log| >= 2 ==> Times(|log| - 1, variance) == Deviation(log, MeanOf(Fields()))
      ensures |log| < 2 ==> variance == 0.0
    {
      WelfordCorrect(Fields(), log);
      variance := if n > 1 then newS / (n - 1) as real else 0.0;
    }
  }
}
