/** The two ways to draw a Latin hypercube sample between bounds. */
module LhsDesign {
  import opened Bits
  import opened LhsSpec
  import opened Lhs

  datatype SamplingError = DimDontMatch | SampleSizeTooSmall

  datatype Sampled = Failed(error: SamplingError) | Design(values: Matrix)

  // ---- the orthogonal design ---------------------------------------------------------------

  /** The unscaled value of a row: the design above, zeros between, its negative below. */
  function Mirrored(m: nat, perm: seq<nat>, c: nat, row: nat): real
    requires m >= 2 && |perm| == Rows(m) && c < Columns(m) && row < DesignRows(m)
  {
    (Level(m, perm, c, row) - Rows(m)) as real
  }

  lemma {:induction false} MirroredCell(m: nat, perm: seq<nat>, c: nat, row: nat)
    requires m >= 2 && |perm| == Rows(m) && c < Columns(m) && row < DesignRows(m)
    ensures var n := Rows(m);
      Mirrored(m, perm, c, row) ==
        if row < n then Entry(m, Seed(perm), c, row)
        else if row == n then 0.0
        else -Entry(m, Seed(perm), c, row - n - 1)
  {
    hide Offset, Entry, Mask, SignBits;
    var n := Rows(m);
    if row < n { OffsetIsEntry(m, perm, c, row); }
    if row > n { OffsetIsEntry(m, perm, c, row - n - 1); }
  }

  /** Two columns of the mirrored design, multiplied row by row. */
  function MirroredProduct(m: nat, perm: seq<nat>, i: nat, j: nat): nat -> real
    requires m >= 2 && |perm| == Rows(m) && i < Columns(m) && j < Columns(m)
  {
    (row: nat) => if row < DesignRows(m) then Mirrored(m, perm, i, row) * Mirrored(m, perm, j, row) else 0.0
  }

  function MirroredColumn(m: nat, perm: seq<nat>, i: nat): nat -> real
    requires m >= 2 && |perm| == Rows(m) && i < Columns(m)
  {
    (row: nat) => if row < DesignRows(m) then Mirrored(m, perm, i, row) else 0.0
  }

  /** A sum over the mirrored rows: the rows above the middle, the middle, the rows below. */
  lemma {:induction false} SumInThree(n: nat, k: nat, f: nat -> real, g: nat -> real, h: nat -> real)
    requires k <= n
    requires forall r: nat :: r < n ==> f(r) == g(r) && f(n + 1 + r) == h(r)
    ensures SumTo(n + 1 + k, f) == SumTo(n, g) + f(n) + SumTo(k, h)
  {
    if k == 0 {
      SumEqual(n, f, g);
      assert SumTo(n + 1, f) == SumTo(n, f) + f(n);
    } else {
      SumInThree(n, k - 1, f, g, h);
      assert f(n + 1 + (k - 1)) == h(k - 1);
    }
  }

  /** The whole design, mirror image included, has orthogonal columns. */
  lemma {:induction false} MirroredOrthogonal(m: nat, perm: seq<nat>, i: nat, j: nat)
    requires m >= 2 && |perm| == Rows(m) && i < Columns(m) && j < Columns(m) && i != j
    ensures SumTo(DesignRows(m), MirroredProduct(m, perm, i, j)) == 0.0
  {
    hide Mirrored, Entry, SumTo;
    var n, p := Rows(m), Product(m, Seed(perm), i, j);
    var f := MirroredProduct(m, perm, i, j);
    forall r: nat | r < n ensures f(r) == p(r) && f(n + 1 + r) == p(r) {
      MirroredCell(m, perm, i, r);
      MirroredCell(m, perm, j, r);
      MirroredCell(m, perm, i, n + 1 + r);
      MirroredCell(m, perm, j, n + 1 + r);
      NegatedProduct(Entry(m, Seed(perm), i, r), Entry(m, Seed(perm), j, r));
    }
    MirroredCell(m, perm, i, n);
    MirroredCell(m, perm, j, n);
    assert f(n) == 0.0;
    SumInThree(n, n, f, p, p);
    assert DesignRows(m) == n + 1 + n;
    Orthogonal(m, Seed(perm), i, j);
  }

  lemma {:induction false} NegatedProduct(x: real, y: real)
    ensures (-x) * (-y) == x * y
  {
  }

  /** And each of its columns is centred: its values add up to zero. */
  lemma {:induction false} MirroredCentred(m: nat, perm: seq<nat>, i: nat)
    requires m >= 2 && |perm| == Rows(m) && i < Columns(m)
    ensures SumTo(DesignRows(m), MirroredColumn(m, perm, i)) == 0.0
  {
    hide Mirrored, Entry, SumTo;
    var n, f := Rows(m), MirroredColumn(m, perm, i);
    var above := (r: nat) => if r < n then Entry(m, Seed(perm), i, r) else 0.0;
    var below := (r: nat) => -above(r);
    forall r: nat | r < n ensures f(r) == above(r) && f(n + 1 + r) == below(r) {
      MirroredCell(m, perm, i, r);
      MirroredCell(m, perm, i, n + 1 + r);
    }
    MirroredCell(m, perm, i, n);
    assert f(n) == 0.0;
    SumInThree(n, n, f, above, below);
    assert DesignRows(m) == n + 1 + n;
    SumNegated(n, below, above);
  }

  /** The product of matrixM and matrixS, element by element. */
  ghost predicate IsDesign(D: Matrix, m: nat, e: seq<real>)
    requires m >= 2 && |e| == Rows(m) && D.Length0 == DesignRows(m) && D.Length1 == Columns(m)
    reads D
  {
    forall r: nat, c: nat :: r < Rows(m) && c < Columns(m) ==> D[r, c] == Entry(m, e, c, r)
  }

  lemma {:induction false} CellOfDesign(M: Matrix, S: Matrix, m: nat, e: seq<real>, r: nat, c: nat)
    requires m >= 2 && |e| == Rows(m) && r < Rows(m) && c < Columns(m)
    requires M.Length0 == Rows(m) && M.Length1 == Columns(m) && FlipColumns(M, m, e, Columns(m))
    requires S.Length0 == Rows(m) && S.Length1 == Columns(m) && SignColumns(S, m, Columns(m))
    ensures M[r, c] * S[r, c] == Entry(m, e, c, r)
  {
    hide Mask, SignBits, Xor, Sign;
  }

  method MultiplyElements(M: Matrix, S: Matrix, D: Matrix, m: nat, ghost e: seq<real>)
    requires m >= 2 && |e| == Rows(m) && D != M && D != S
    requires M.Length0 == Rows(m) && M.Length1 == Columns(m) && FlipColumns(M, m, e, Columns(m))
    requires S.Length0 == Rows(m) && S.Length1 == Columns(m) && SignColumns(S, m, Columns(m))
    requires D.Length0 == DesignRows(m) && D.Length1 == Columns(m)
    modifies D
    ensures IsDesign(D, m, e)
    ensures forall i, j :: Rows(m) <= i < D.Length0 && 0 <= j < D.Length1 ==> D[i, j] == old(D[i, j])
  {
    hide FlipColumns, SignColumns, Entry;
    forall r: nat, c: nat | r < Rows(m) && c < Columns(m) ensures M[r, c] * S[r, c] == Entry(m, e, c, r) {
      CellOfDesign(M, S, m, e, r, c);
    }
    forall i, j | 0 <= i < M.Length0 && 0 <= j < M.Length1 {
      D[i, j] := M[i, j] * S[i, j];
    }
  }

  /** The rows below the middle become the negatives of those above it. */
  method Mirror(D: Matrix, size: nat)
    requires D.Length0 == 2 * size + 1
    modifies D
    ensures forall i, j :: 0 <= i < D.Length0 && 0 <= j < D.Length1 ==>
      D[i, j] == if i <= size then old(D[i, j]) else -old(D[i - size - 1, j])
  {
    forall i, j | size < i < D.Length0 && 0 <= j < D.Length1 {
      D[i, j] := -1.0 * D[i - size - 1, j];
    }
  }

  /** The unscaled design: the products above, zeros between, their negatives below. */
  method Stack(M: Matrix, S: Matrix, m: nat, ghost perm: seq<nat>) returns (D: Matrix)
    requires m >= 2 && |perm| == Rows(m)
    requires M.Length0 == Rows(m) && M.Length1 == Columns(m) && FlipColumns(M, m, Seed(perm), Columns(m))
    requires S.Length0 == Rows(m) && S.Length1 == Columns(m) && SignColumns(S, m, Columns(m))
    ensures D.Length0 == DesignRows(m) && D.Length1 == Columns(m) && fresh(D)
    ensures forall row: nat, c: nat :: row < DesignRows(m) && c < Columns(m) ==>
      D[row, c] == Mirrored(m, perm, c, row)
  {
    hide FlipColumns, SignColumns, Entry, Mirrored;
    D := new real[2 * M.Length0 + 1, M.Length1]((_, _) => 0.0);
    MultiplyElements(M, S, D, m, Seed(perm));
    Mirror(D, M.Length0);
    forall row: nat, c: nat | row < DesignRows(m) && c < Columns(m)
      ensures D[row, c] == Mirrored(m, perm, c, row)
    {
      MirroredCell(m, perm, c, row);
    }
  }

  /** A column's bounds: those given, padded by 0 and 1. */
  function Bound(bounds: seq<real>, c: nat, padding: real): real {
    if c < |bounds| then bounds[c] else padding
  }

  /** Moves every value up by `k`. */
  method AddConstant(D: Matrix, k: real)
    modifies D
    ensures forall i, j :: 0 <= i < D.Length0 && 0 <= j < D.Length1 ==> D[i, j] == old(D[i, j]) + k
  {
    forall i, j | 0 <= i < D.Length0 && 0 <= j < D.Length1 {
      D[i, j] := D[i, j] + k;
    }
  }

  method ScaleAll(D: Matrix, k: real)
    modifies D
    ensures forall i, j :: 0 <= i < D.Length0 && 0 <= j < D.Length1 ==> D[i, j] == old(D[i, j]) * k
  {
    forall i, j | 0 <= i < D.Length0 && 0 <= j < D.Length1 {
      D[i, j] := D[i, j] * k;
    }
  }

  /** `x` in [0, 1] stretched to the bounds. */
  function Stretched(x: real, min: real, max: real): real { x * (max - min) + min }

  /** Stretches column c from [0, 1] to its bounds. */
  method Stretch(D: Matrix, min: seq<real>, max: seq<real>)
    modifies D
    ensures forall i, j :: 0 <= i < D.Length0 && 0 <= j < D.Length1 ==>
      D[i, j] == Stretched(old(D[i, j]), Bound(min, j, 0.0), Bound(max, j, 1.0))
  {
    forall i, j | 0 <= i < D.Length0 && 0 <= j < D.Length1 {
      D[i, j] := Stretched(D[i, j], Bound(min, j, 0.0), Bound(max, j, 1.0));
    }
  }

  lemma {:induction false} CellValue(m: nat, perm: seq<nat>, c: nat, row: nat, lo: real, hi: real, x: real)
    requires m >= 2 && |perm| == Rows(m) && c < Columns(m) && row < DesignRows(m)
    requires x == Share(Mirrored(m, perm, c, row) + Pow2(m - 1) as real, Pow2(m) as real)
    ensures Stretched(x, lo, hi) == DesignValue(m, perm, c, row, lo, hi)
  {
    hide Level, Pow2, Share, Stretched, Steps;
    StretchedShare(Level(m, perm, c, row) as real, Pow2(m) as real, lo, hi);
  }

  function Share(l: real, n: real): real
    requires n > 0.0
  {
    l * (1.0 / n)
  }

  lemma {:induction false} StretchedShare(l: real, n: real, lo: real, hi: real)
    requires n > 0.0
    ensures Stretched(Share(l, n), lo, hi) == lo + Steps(l, n, hi - lo)
  {
    assert Share(l, n) == l / n;
  }

  // ---- the delivered values --------------------------------------------------------------------

  /** The middle of a column's bounds. */
  function Middle(lo: real, hi: real): real { (lo + hi) / 2.0 }

  /** How far a step of the unscaled design moves a value. */
  function StepSize(m: nat, lo: real, hi: real): real { (hi - lo) / Pow2(m) as real }

  /** A value is its column's middle plus so many steps as the unscaled design says. */
  lemma {:induction false} ValueFromMiddle(m: nat, perm: seq<nat>, c: nat, row: nat, lo: real, hi: real)
    requires m >= 2 && |perm| == Rows(m) && c < Columns(m) && row < DesignRows(m)
    ensures DesignValue(m, perm, c, row, lo, hi) - Middle(lo, hi)
      == Times(StepSize(m, lo, hi), Mirrored(m, perm, c, row))
  {
    var l, n := Level(m, perm, c, row) as real, Pow2(m) as real;
    assert Pow2(m) == 2 * Pow2(m - 1);
    hide Level, Pow2;
    AboutMiddle(l, n, Rows(m) as real, lo, hi);
  }

  function Times(x: real, y: real): real { x * y }

  lemma {:induction false} AboutMiddle(l: real, n: real, half: real, lo: real, hi: real)
    requires n > 0.0 && n == 2.0 * half
    ensures lo + Steps(l, n, hi - lo) - Middle(lo, hi) == Times((hi - lo) / n, l - half)
  {
    var w := hi - lo;
    var s := w / n;
    assert s * n == w;
    assert l / n * w == l * s by {
      assert l / n * n == l;
      assert (l / n) * (s * n) == ((l / n) * n) * s;
    }
    assert s * half == w / 2.0;
    assert s * (l - half) == s * l - s * half;
  }

  /** The deviations of two columns from their middles, multiplied row by row. */
  function Deviations(m: nat, perm: seq<nat>, min: seq<real>, max: seq<real>, i: nat, j: nat): nat -> real
    requires m >= 2 && |perm| == Rows(m) && i < Columns(m) && j < Columns(m)
  {
    (row: nat) => if row < DesignRows(m)
      then Times(Deviation(m, perm, min, max, i, row), Deviation(m, perm, min, max, j, row)) else 0.0
  }

  /** How far the delivered value lies from the middle of its column's bounds. */
  function Deviation(m: nat, perm: seq<nat>, min: seq<real>, max: seq<real>, c: nat, row: nat): real
    requires m >= 2 && |perm| == Rows(m) && c < Columns(m) && row < DesignRows(m)
  {
    var lo, hi := Bound(min, c, 0.0), Bound(max, c, 1.0);
    DesignValue(m, perm, c, row, lo, hi) - Middle(lo, hi)
  }

  function DeviationColumn(m: nat, perm: seq<nat>, min: seq<real>, max: seq<real>, c: nat): nat -> real
    requires m >= 2 && |perm| == Rows(m) && c < Columns(m)
  {
    (row: nat) => if row < DesignRows(m) then Deviation(m, perm, min, max, c, row) else 0.0
  }

  lemma {:induction false} SumTimes(n: nat, f: nat -> real, g: nat -> real, k: real)
    requires forall r: nat :: r < n ==> f(r) == Times(k, g(r))
    ensures SumTo(n, f) == Times(k, SumTo(n, g))
  {
    hide Times;
    if n == 0 {
      TimesAdds(k, 0.0, 0.0);
    } else {
      SumTimes(n - 1, f, g, k);
      TimesAdds(k, SumTo(n - 1, g), g(n - 1));
    }
  }

  lemma {:induction false} TimesAdds(k: real, x: real, y: real)
    ensures Times(k, x + y) == Times(k, x) + Times(k, y) && Times(k, 0.0) == 0.0
  {
  }

  lemma {:induction false} FourFactors(a: real, x: real, b: real, y: real)
    ensures Times(Times(a, x), Times(b, y)) == Times(Times(a, b), x * y)
  {
  }

  /** The middle of its bounds is the mean of each delivered column. */
  lemma {:induction false} DeliveredMean(m: nat, perm: seq<nat>, min: seq<real>, max: seq<real>, c: nat)
    requires m >= 2 && |perm| == Rows(m) && c < Columns(m)
    ensures SumTo(DesignRows(m), DeviationColumn(m, perm, min, max, c)) == 0.0
  {
    hide Mirrored, DesignValue, Times, Middle, StepSize, SumTo, DesignRows;
    var lo, hi := Bound(min, c, 0.0), Bound(max, c, 1.0);
    var k, f, g := StepSize(m, lo, hi), DeviationColumn(m, perm, min, max, c), MirroredColumn(m, perm, c);
    forall row: nat | row < DesignRows(m) ensures f(row) == Times(k, g(row)) {
      ValueFromMiddle(m, perm, c, row, lo, hi);
    }
    SumTimes(DesignRows(m), f, g, k);
    MirroredCentred(m, perm, c);
    TimesAdds(k, 0.0, 0.0);
  }

  /** Any two delivered columns have zero covariance, whatever their bounds: their deviations from
      the means, multiplied row by row, add up to zero. */
  lemma {:induction false} DeliveredUncorrelated(
    m: nat, perm: seq<nat>, min: seq<real>, max: seq<real>, i: nat, j: nat)
    requires m >= 2 && |perm| == Rows(m) && i < Columns(m) && j < Columns(m) && i != j
    ensures SumTo(DesignRows(m), Deviations(m, perm, min, max, i, j)) == 0.0
  {
    hide Mirrored, DesignValue, Times, Middle, StepSize, SumTo, DesignRows;
    var a := StepSize(m, Bound(min, i, 0.0), Bound(max, i, 1.0));
    var b := StepSize(m, Bound(min, j, 0.0), Bound(max, j, 1.0));
    var f, g, k := Deviations(m, perm, min, max, i, j), MirroredProduct(m, perm, i, j), Times(a, b);
    forall row: nat | row < DesignRows(m) ensures f(row) == Times(k, g(row)) {
      ValueFromMiddle(m, perm, i, row, Bound(min, i, 0.0), Bound(max, i, 1.0));
      ValueFromMiddle(m, perm, j, row, Bound(min, j, 0.0), Bound(max, j, 1.0));
      var x, y := Mirrored(m, perm, i, row), Mirrored(m, perm, j, row);
      assert f(row) == Times(Times(a, x), Times(b, y));
      FourFactors(a, x, b, y);
      assert g(row) == x * y;
    }
    SumTimes(DesignRows(m), f, g, k);
    MirroredOrthogonal(m, perm, i, j);
    TimesAdds(k, 0.0, 0.0);
  }

  /** From the unscaled design to the bounds of each column. */
  method Scale(D: Matrix, m: nat, ghost perm: seq<nat>, min: seq<real>, max: seq<real>)
    requires m >= 2 && |perm| == Rows(m)
    requires D.Length0 == DesignRows(m) && D.Length1 == Columns(m)
    requires forall row: nat, c: nat :: row < DesignRows(m) && c < Columns(m) ==>
      D[row, c] == Mirrored(m, perm, c, row)
    modifies D
    ensures forall row: nat, c: nat :: row < DesignRows(m) && c < Columns(m) ==>
      D[row, c] == DesignValue(m, perm, c, row, Bound(min, c, 0.0), Bound(max, c, 1.0))
  {
    hide Mirrored, DesignValue, Stretched, Pow2;
    var n := Pow2(m) as real;
    AddConstant(D, Pow2(m - 1) as real);
    label added:
    ScaleAll(D, 1.0 / n);
    label scaled:
    Stretch(D, min, max);
    forall row: nat, c: nat | row < DesignRows(m) && c < Columns(m)
      ensures D[row, c] == DesignValue(m, perm, c, row, Bound(min, c, 0.0), Bound(max, c, 1.0))
    {
      assert old@added(D[row, c]) == old(D[row, c]) + Pow2(m - 1) as real;
      assert old@scaled(D[row, c]) == Share(old@added(D[row, c]), n);
      CellValue(m, perm, c, row, Bound(min, c, 0.0), Bound(max, c, 1.0), old@scaled(D[row, c]));
    }
  }

  /** The sample for the permutation chosen as seed. */
  method Assemble(m: nat, perm: seq<nat>, min: seq<real>, max: seq<real>) returns (D: Matrix)
    requires m >= 2 && |perm| == Rows(m)
    ensures D.Length0 == DesignRows(m) && D.Length1 == Columns(m)
    ensures forall row: nat, c: nat :: row < DesignRows(m) && c < Columns(m) ==>
      D[row, c] == DesignValue(m, perm, c, row, Bound(min, c, 0.0), Bound(max, c, 1.0))
  {
    hide FlipColumns, SignColumns, Mirrored, DesignValue, Bound;
    var e := new real[|perm|](i requires 0 <= i < |perm| => (perm[i] + 1) as real);
    assert e[..] == Seed(perm);
    var M := MatrixM(m, e);
    var S := MatrixS(m);
    D := Stack(M, S, m, perm);
    Scale(D, m, perm, min, max);
  }

  /** The orthogonal sample; the level of each cell is the subject of LevelsExactlyOnce. */
  method SampleOrthogonal(m: nat, perm: seq<nat>, min: seq<real>, max: seq<real>) returns (result: Sampled)
    requires m >= 2 ==> |perm| == Rows(m) && |min| <= Columns(m)
    ensures result.Failed? <==> |min| != |max| || m < 2
    ensures result.Failed? ==> result.error == if |min| != |max| then DimDontMatch else SampleSizeTooSmall
    ensures result.Design? ==>
      && result.values.Length0 == DesignRows(m) && result.values.Length1 == Columns(m)
      && forall row: nat, c: nat :: row < DesignRows(m) && c < Columns(m) ==>
           result.values[row, c] == DesignValue(m, perm, c, row, Bound(min, c, 0.0), Bound(max, c, 1.0))
  {
    if |min| != |max| {
      return Failed(DimDontMatch);
    }
    if m < 2 {
      return Failed(SampleSizeTooSmall);
    }
    var D := Assemble(m, perm, min, max);
    result := Design(D);
  }

  // ---- the stratified sample ---------------------------------------------------------------

  /** Where draw `u` lands in the stratum that `perm` gives row i. */
  function Landed(perm: seq<nat>, u: real, i: nat): real
    requires i < |perm|
  {
    ((perm[i] + 1) as real - u) / |perm| as real
  }

  /** Stratum k of the n equal parts of (0, 1], open below. */
  predicate InStratum(x: real, k: int, n: nat)
    requires n > 0
  {
    k as real / n as real < x <= (k + 1) as real / n as real
  }

  lemma {:induction false} QuotientOrder(a: real, b: real, n: real)
    requires n > 0.0
    ensures a < b <==> a / n < b / n
    ensures a == b ==> a / n == b / n
  {
  }

  /** A draw lands in the stratum of its row and in no other. */
  lemma {:induction false} LandsInStratum(perm: seq<nat>, u: real, i: nat, k: nat)
    requires i < |perm| && 0.0 <= u < 1.0
    ensures InStratum(Landed(perm, u, i), k, |perm|) <==> k == perm[i]
  {
    var n := |perm| as real;
    var y := (perm[i] + 1) as real - u;
    QuotientOrder(k as real, y, n);
    QuotientOrder((k + 1) as real, y, n);
    QuotientOrder(y, (k + 1) as real, n);
    if k < perm[i] {
      assert (k + 1) as real <= perm[i] as real;
    } else if k > perm[i] {
      assert k as real >= (perm[i] + 1) as real;
    }
  }

  ghost predicate Hits(perm: seq<nat>, u: seq<real>, k: nat, i: nat)
    requires |u| == |perm|
  {
    i < |perm| && InStratum(Landed(perm, u[i], i), k, |perm|)
  }

  /** Every stratum holds exactly one of a column's samples, whatever the draws. */
  lemma {:induction false} OnePerStratum(perm: seq<nat>, u: seq<real>, k: nat)
    requires IsPermutation(perm) && |u| == |perm| && k < |perm|
    requires forall i :: 0 <= i < |u| ==> 0.0 <= u[i] < 1.0
    ensures exists i: nat :: Hits(perm, u, k, i)
    ensures forall i: nat, j: nat :: Hits(perm, u, k, i) && Hits(perm, u, k, j) ==> i == j
  {
    assert k in perm;
    var i: nat :| i < |perm| && perm[i] == k;
    forall j: nat | j < |perm| ensures Hits(perm, u, k, j) <==> perm[j] == k {
      LandsInStratum(perm, u[j], j, k);
    }
    assert Hits(perm, u, k, i);
  }

  /** The stratified sample: column j shuffles the strata by perms[j], with uniform draws u. */
  method SampleStratified(size: int, perms: seq<seq<nat>>, u: Matrix, min: seq<real>, max: seq<real>)
    returns (result: Sampled)
    requires |perms| == |max| && u.Length1 == |max|
    requires size >= 2 ==> u.Length0 == size && forall j :: 0 <= j < |perms| ==> |perms[j]| == size
    ensures result.Failed? <==> |min| != |max| || size < 2
    ensures result.Failed? ==> result.error == if |min| != |max| then DimDontMatch else SampleSizeTooSmall
    ensures result.Design? ==>
      && result.values.Length0 == size && result.values.Length1 == |max|
      && forall i: nat, j: nat :: i < size && j < |max| ==>
           result.values[i, j] == Stretched(Landed(perms[j], u[i, j], i), min[j], max[j])
  {
    if |min| != |max| {
      return Failed(DimDontMatch);
    }
    if size < 2 {
      return Failed(SampleSizeTooSmall);
    }
    var D := new real[size, |max|]((_, _) => 0.0);
    for j := 0 to |max|
      invariant fresh(D)
      invariant forall i: nat, j': nat :: i < size && j' < j ==>
        D[i, j'] == Stretched(Landed(perms[j'], u[i, j'], i), min[j'], max[j'])
    {
      for i := 0 to size
        invariant forall i': nat, j': nat :: i' < size && (j' < j || (j' == j && i' < i)) ==>
          D[i', j'] == Stretched(Landed(perms[j'], u[i', j'], i'), min[j'], max[j'])
      {
        D[i, j] := Stretched(Landed(perms[j], u[i, j], i), min[j], max[j]);
      }
    }
    result := Design(D);
  }
}
