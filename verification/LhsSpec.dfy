/** The orthogonal Latin hypercube: 2^(m-1) rows, 2m-2 columns. Column c holds the seed vector
    with its rows permuted by flipping the bits of a mask, times a pattern of signs. */
module LhsSpec {
  import opened Bits

  function Rows(m: nat): nat
    requires m >= 2
  {
    Pow2(m - 1)
  }

  function Columns(m: nat): nat
    requires m >= 2
  {
    2 * m - 2
  }

  /** Columns 0 to m-1 flip the low c bits, column m+j all but the low j+1 bits. */
  function Mask(m: nat, c: nat): nat
    requires m >= 2 && c < Columns(m)
  {
    if c < m then Low(c) else Xor(Low(m - 1), Low(c - m + 1))
  }

  /** The bits whose product is column c's sign: none, bit c-1, or bits 0 and j+1. */
  function SignBits(m: nat, c: nat): nat
    requires m >= 2 && c < Columns(m)
  {
    if c == 0 then 0
    else if c < m then Pow2(c - 1)
    else Xor(Pow2(0), Pow2(c - m + 1))
  }

  lemma {:induction false} PowMonotone(a: nat, b: nat)
    requires a <= b
    ensures Pow2(a) <= Pow2(b)
    decreases b
  {
    if a == b {
    } else {
      PowMonotone(a, b - 1);
    }
  }

  lemma {:induction false} MaskBound(m: nat, c: nat)
    requires m >= 2 && c < Columns(m)
    ensures Mask(m, c) < Rows(m)
  {
    if c < m {
      PowMonotone(c, m - 1);
    } else {
      PowMonotone(c - m + 1, m - 1);
      XorBound(Low(m - 1), Low(c - m + 1), m - 1);
    }
  }

  /** An entry of the design matrix: matrixM's entry times matrixS's. */
  function Entry(m: nat, e: seq<real>, c: nat, r: nat): real
    requires m >= 2 && |e| == Rows(m) && c < Columns(m) && r < Rows(m)
  {
    MaskBound(m, c);
    XorBound(r, Mask(m, c), m - 1);
    e[Xor(r, Mask(m, c))] * Sign(r, SignBits(m, c)) as real
  }

  function Product(m: nat, e: seq<real>, i: nat, j: nat): nat -> real
    requires m >= 2 && |e| == Rows(m) && i < Columns(m) && j < Columns(m)
  {
    (r: nat) => if r < Rows(m) then Entry(m, e, i, r) * Entry(m, e, j, r) else 0.0
  }

  /** Minus one to the number of bits that mask `i` shares with sign bits `j`. */
  function Cross(m: nat, i: nat, j: nat): int
    requires m >= 2 && i < Columns(m) && j < Columns(m)
  {
    Flip(Mask(m, i), SignBits(m, j))
  }

  function Below(b: nat, k: nat): int { if b < k then -1 else 1 }

  lemma {:induction false} CrossValue(m: nat, i: nat, j: nat)
    requires m >= 2 && i < Columns(m) && j < Columns(m)
    ensures Cross(m, i, j) ==
      if j == 0 then 1
      else if i < m && j < m then Below(j - 1, i)
      else if i < m then Below(0, i) * Below(j - m + 1, i)
      else if j < m then Below(j - 1, m - 1) * Below(j - 1, i - m + 1)
      else Below(0, m - 1) * Below(0, i - m + 1) * Below(j - m + 1, m - 1) * Below(j - m + 1, i - m + 1)
  {
    if j > 0 && i < m && j < m {
      FlipLow(i, j - 1);
    } else if j > 0 && i < m {
      FlipXorRight(Low(i), Pow2(0), Pow2(j - m + 1));
      FlipLow(i, 0);
      FlipLow(i, j - m + 1);
    } else if j > 0 && j < m {
      FlipXorLeft(Low(m - 1), Low(i - m + 1), Pow2(j - 1));
      FlipLow(m - 1, j - 1);
      FlipLow(i - m + 1, j - 1);
    } else if j > 0 {
      var a, b, p, q := Low(m - 1), Low(i - m + 1), Pow2(0), Pow2(j - m + 1);
      FlipXorRight(Xor(a, b), p, q);
      FlipXorLeft(a, b, p);
      FlipXorLeft(a, b, q);
      FlipLow(m - 1, 0);
      FlipLow(i - m + 1, 0);
      FlipLow(m - 1, j - m + 1);
      FlipLow(i - m + 1, j - m + 1);
    }
  }

  /** For two different columns the masks' difference and the sign bits' difference share an
      odd number of bits. */
  lemma {:induction false} OddOverlap(m: nat, i: nat, j: nat)
    requires m >= 2 && i < j < Columns(m)
    ensures Flip(Xor(Mask(m, i), Mask(m, j)), Xor(SignBits(m, i), SignBits(m, j))) == -1
  {
    var a, b, p, q := Mask(m, i), Mask(m, j), SignBits(m, i), SignBits(m, j);
    FlipXorRight(Xor(a, b), p, q);
    FlipXorLeft(a, b, p);
    FlipXorLeft(a, b, q);
    CrossValue(m, i, i);
    CrossValue(m, i, j);
    CrossValue(m, j, i);
    CrossValue(m, j, j);
  }

  function Difference(m: nat, i: nat, j: nat): nat
    requires m >= 2 && i < Columns(m) && j < Columns(m)
  {
    Xor(Mask(m, i), Mask(m, j))
  }

  lemma {:induction false} SignsOppose(m: nat, i: nat, j: nat, r: nat)
    requires m >= 2 && i < j < Columns(m)
    ensures var p, q, r' := SignBits(m, i), SignBits(m, j), Xor(r, Difference(m, i, j));
      Sign(r', p) * Sign(r', q) == -(Sign(r, p) * Sign(r, q))
  {
    var p, q, r' := SignBits(m, i), SignBits(m, j), Xor(r, Difference(m, i, j));
    OddOverlap(m, i, j);
    SignProduct(r, p, q);
    SignProduct(r', p, q);
    SignXor(r, Difference(m, i, j), Xor(p, q));
  }

  lemma {:induction false} PartnerRow(m: nat, i: nat, j: nat, r: nat)
    requires m >= 2 && i < Columns(m) && j < Columns(m) && r < Rows(m)
    ensures var r' := Xor(r, Difference(m, i, j));
      && r' < Rows(m)
      && Xor(r', Mask(m, i)) == Xor(r, Mask(m, j)) < Rows(m)
      && Xor(r', Mask(m, j)) == Xor(r, Mask(m, i)) < Rows(m)
  {
    MaskBound(m, i);
    MaskBound(m, j);
    XorBound(Mask(m, i), Mask(m, j), m - 1);
    XorBound(r, Difference(m, i, j), m - 1);
    XorBound(r, Mask(m, i), m - 1);
    XorBound(r, Mask(m, j), m - 1);
    XorExchange(r, Mask(m, i), Mask(m, j));
  }

  /** Flipping the row by the difference of two columns' masks turns the product of their
      entries into its negative. */
  lemma {:induction false} RowsPairOff(m: nat, e: seq<real>, i: nat, j: nat, r: nat)
    requires m >= 2 && |e| == Rows(m) && i < j < Columns(m) && r < Rows(m)
    ensures Product(m, e, i, j)(Xor(r, Difference(m, i, j))) == -Product(m, e, i, j)(r)
  {
    hide Mask, SignBits, Xor, Sign, Difference;
    var r' := Xor(r, Difference(m, i, j));
    PartnerRow(m, i, j, r);
    SignsOppose(m, i, j, r);
    var x, y := e[Xor(r, Mask(m, i))], e[Xor(r, Mask(m, j))];
    var p, q := SignBits(m, i), SignBits(m, j);
    assert Entry(m, e, i, r') == y * Sign(r', p) as real && Entry(m, e, j, r') == x * Sign(r', q) as real;
    assert Entry(m, e, i, r) == x * Sign(r, p) as real && Entry(m, e, j, r) == y * Sign(r, q) as real;
    Opposite(x, y, Sign(r, p), Sign(r, q), Sign(r', p), Sign(r', q));
  }

  lemma {:induction false} Opposite(x: real, y: real, s: int, t: int, s': int, t': int)
    requires (s == 1 || s == -1) && (t == 1 || t == -1) && (s' == 1 || s' == -1) && (t' == 1 || t' == -1)
    requires s' * t' == -(s * t)
    ensures (y * s' as real) * (x * t' as real) == -((x * s as real) * (y * t as real))
  {
  }

  /** Any two different columns of the design are orthogonal, for every size and every seed. */
  lemma {:induction false} Orthogonal(m: nat, e: seq<real>, i: nat, j: nat)
    requires m >= 2 && |e| == Rows(m) && i < Columns(m) && j < Columns(m) && i != j
    ensures SumTo(Rows(m), Product(m, e, i, j)) == 0.0
  {
    if i < j {
      var d := Difference(m, i, j);
      MaskBound(m, i);
      MaskBound(m, j);
      XorBound(Mask(m, i), Mask(m, j), m - 1);
      forall r: nat | r < Rows(m)
        ensures Product(m, e, i, j)(Xor(r, d)) == -Product(m, e, i, j)(r)
      {
        RowsPairOff(m, e, i, j, r);
      }
      SumCancels(m - 1, Product(m, e, i, j), d);
    } else {
      Orthogonal(m, e, j, i);
      forall r: nat | r < Rows(m) ensures Product(m, e, i, j)(r) == Product(m, e, j, i)(r) {}
      SumEqual(Rows(m), Product(m, e, i, j), Product(m, e, j, i));
    }
  }

  // ---- the levels of the assembled design --------------------------------------------------

  /** What gsl_permutation holds: every index below its length exactly once. */
  ghost predicate IsPermutation(perm: seq<nat>) {
    && (forall i :: 0 <= i < |perm| ==> perm[i] < |perm|)
    && (forall i, j :: 0 <= i < j < |perm| ==> perm[i] != perm[j])
    && (forall v: nat :: v < |perm| ==> v in perm)
  }

  /** The seed vector of a permutation: 1 to 2^(m-1) in some order. */
  function Seed(perm: seq<nat>): (e: seq<real>)
    ensures |e| == |perm| && forall i :: 0 <= i < |perm| ==> e[i] == (perm[i] + 1) as real
  {
    seq(|perm|, i requires 0 <= i < |perm| => (perm[i] + 1) as real)
  }

  /** Rows of the assembled design: the design, a row of zeros, the mirrored design. */
  function DesignRows(m: nat): nat
    requires m >= 2
  {
    2 * Rows(m) + 1
  }

  /** The number of equal steps above the minimum at which a row's entry lies. */
  function Level(m: nat, perm: seq<nat>, c: nat, row: nat): int
    requires m >= 2 && |perm| == Rows(m) && c < Columns(m) && row < DesignRows(m)
  {
    var n := Rows(m);
    if row < n then n + Offset(m, perm, c, row)
    else if row == n then n
    else n - Offset(m, perm, c, row - n - 1)
  }

  function Offset(m: nat, perm: seq<nat>, c: nat, r: nat): int
    requires m >= 2 && |perm| == Rows(m) && c < Columns(m) && r < Rows(m)
  {
    MaskBound(m, c);
    XorBound(r, Mask(m, c), m - 1);
    (perm[Xor(r, Mask(m, c))] + 1) * Sign(r, SignBits(m, c))
  }

  lemma {:induction false} OffsetIsEntry(m: nat, perm: seq<nat>, c: nat, r: nat)
    requires m >= 2 && |perm| == Rows(m) && c < Columns(m) && r < Rows(m)
    ensures Offset(m, perm, c, r) as real == Entry(m, Seed(perm), c, r)
  {
    MaskBound(m, c);
    XorBound(r, Mask(m, c), m - 1);
  }

  lemma {:induction false} OffsetSize(m: nat, perm: seq<nat>, c: nat, r: nat)
    requires m >= 2 && |perm| == Rows(m) && c < Columns(m) && r < Rows(m)
    ensures var k := Xor(r, Mask(m, c));
      && k < Rows(m)
      && (Offset(m, perm, c, r) == perm[k] + 1 || Offset(m, perm, c, r) == -1 - perm[k] as int)
  {
    MaskBound(m, c);
    XorBound(r, Mask(m, c), m - 1);
  }

  /** Two rows of one column never share a level. */
  lemma {:induction false} OffsetsDiffer(m: nat, perm: seq<nat>, c: nat, r: nat, r': nat)
    requires m >= 2 && |perm| == Rows(m) && IsPermutation(perm) && c < Columns(m)
    requires r < Rows(m) && r' < Rows(m) && r != r'
    ensures Offset(m, perm, c, r) != Offset(m, perm, c, r') && Offset(m, perm, c, r) != -Offset(m, perm, c, r')
  {
    OffsetSize(m, perm, c, r);
    OffsetSize(m, perm, c, r');
    XorInvolution(r, Mask(m, c));
    XorInvolution(r', Mask(m, c));
  }

  lemma {:induction false} LevelsDiffer(m: nat, perm: seq<nat>, c: nat, row: nat, row': nat)
    requires m >= 2 && |perm| == Rows(m) && IsPermutation(perm) && c < Columns(m)
    requires row < DesignRows(m) && row' < DesignRows(m)
    requires Level(m, perm, c, row) == Level(m, perm, c, row')
    ensures row == row'
  {
    var n := Rows(m);
    var r, r' := if row <= n then row else row - n - 1, if row' <= n then row' else row' - n - 1;
    if row != n { OffsetSize(m, perm, c, r); }
    if row' != n { OffsetSize(m, perm, c, r'); }
    if row != n && row' != n && r != r' {
      OffsetsDiffer(m, perm, c, r, r');
    }
  }

  /** The row of a column whose entry lies at a level. */
  lemma {:induction false} LevelReached(m: nat, perm: seq<nat>, c: nat, level: nat) returns (row: nat)
    requires m >= 2 && |perm| == Rows(m) && IsPermutation(perm) && c < Columns(m)
    requires level < DesignRows(m)
    ensures row < DesignRows(m) && Level(m, perm, c, row) == level
  {
    hide Mask, Xor, Pow2, Offset;
    var n, mask := Rows(m), Mask(m, c);
    if level == n {
      row := n;
    } else {
      var size: nat := if level > n then level - n else n - level;
      assert size - 1 in perm;
      var k: nat :| k < |perm| && perm[k] == size - 1;
      MaskBound(m, c);
      XorBound(k, mask, m - 1);
      XorInvolution(k, mask);
      var r := Xor(k, mask);
      OffsetSize(m, perm, c, r);
      row := if (Offset(m, perm, c, r) > 0) == (level > n) then r else n + 1 + r;
    }
  }

  ghost predicate Reached(m: nat, perm: seq<nat>, c: nat, level: nat)
    requires m >= 2 && |perm| == Rows(m) && c < Columns(m)
  {
    exists row: nat :: row < DesignRows(m) && Level(m, perm, c, row) == level
  }

  /** Each column of the assembled design takes each of its 2^m + 1 levels in exactly one row. */
  lemma {:induction false} LevelsExactlyOnce(m: nat, perm: seq<nat>, c: nat)
    requires m >= 2 && |perm| == Rows(m) && IsPermutation(perm) && c < Columns(m)
    ensures forall level: nat :: level < DesignRows(m) ==> Reached(m, perm, c, level)
    ensures forall row: nat, row': nat :: row < row' < DesignRows(m) ==>
      Level(m, perm, c, row) != Level(m, perm, c, row')
    ensures forall row: nat :: row < DesignRows(m) ==> 0 <= Level(m, perm, c, row) < DesignRows(m)
  {
    forall level: nat | level < DesignRows(m) ensures Reached(m, perm, c, level) {
      var row := LevelReached(m, perm, c, level);
    }
    forall row: nat, row': nat | row < row' < DesignRows(m)
      ensures Level(m, perm, c, row) != Level(m, perm, c, row')
    {
      if Level(m, perm, c, row) == Level(m, perm, c, row') { LevelsDiffer(m, perm, c, row, row'); }
    }
    forall row: nat | row < DesignRows(m) ensures 0 <= Level(m, perm, c, row) < DesignRows(m) {
      LevelInRange(m, perm, c, row);
    }
  }

  lemma {:induction false} LevelInRange(m: nat, perm: seq<nat>, c: nat, row: nat)
    requires m >= 2 && |perm| == Rows(m) && IsPermutation(perm) && c < Columns(m) && row < DesignRows(m)
    ensures 0 <= Level(m, perm, c, row) <= Pow2(m)
  {
    var n := Rows(m);
    if row < n { OffsetSize(m, perm, c, row); }
    if row > n { OffsetSize(m, perm, c, row - n - 1); }
  }

  /** The columns of index c below m, by blocks of 2^c rows: each block holds the seed's levels of that
      block in reverse, below the middle in its first half and above it in the second. */
  lemma {:induction false} ColumnByBlocks(m: nat, perm: seq<nat>, c: nat, b: nat, s: nat)
    requires m >= 2 && |perm| == Rows(m) && c < m && s < Pow2(c) && Block(b, c) + s < Rows(m)
    ensures var n, r, k := Rows(m), Block(b, c) + s, Block(b, c) + (Pow2(c) - 1 - s);
      && k < n && r < n
      && Level(m, perm, c, r) == if c > 0 && s < Pow2(c - 1) then n - (perm[k] + 1) else n + (perm[k] + 1)
  {
    hide Xor, Sign, Block;
    var r := Block(b, c) + s;
    MaskBound(m, c);
    XorBound(r, Mask(m, c), m - 1);
    LowReverses(b, c, s);
    if c == 0 {
      SignNone(r);
    } else {
      SignInBlock(b, c - 1, s);
    }
  }

  /** The columns from m on, by blocks of 2^(j+1) rows: the blocks come in reverse order but not
      reversed, above the middle where block and row are both even or both odd. */
  lemma {:induction false} ColumnByPairs(m: nat, perm: seq<nat>, j: nat, b: nat, s: nat)
    requires m >= 2 && |perm| == Rows(m) && j < m - 2 && s < Pow2(j + 1) && Block(b, j + 1) + s < Rows(m)
    ensures var n, r := Rows(m), Block(b, j + 1) + s; var k := n - Block(b + 1, j + 1) + s;
      && 0 <= k < n && r < n
      && Level(m, perm, m + j, r) == if b % 2 == s % 2 then n + (perm[k] + 1) else n - (perm[k] + 1)
  {
    hide Xor, Sign, Level, Block, Pow2;
    var r := Block(b, j + 1) + s;
    PairRow(m, j, b, s);
    SignOfPair(r, b, j + 1, s);
    LevelAbove(m, perm, m + j, r);
  }

  /** The row of the seed that column m+j takes. */
  lemma {:induction false} PairRow(m: nat, j: nat, b: nat, s: nat)
    requires m >= 2 && j < m - 2 && s < Pow2(j + 1) && Block(b, j + 1) + s < Rows(m)
    ensures Xor(Block(b, j + 1) + s, Mask(m, m + j)) == Rows(m) - Block(b + 1, j + 1) + s
    ensures Block(b + 1, j + 1) <= Rows(m) + s < Rows(m) + Block(b + 1, j + 1)
  {
    hide Xor, Block, Pow2, Low;
    var n, r, B, q := Pow2(m - 1), Block(b, j + 1) + s, Pow2(m - 2 - j), Pow2(j + 1);
    PowSplit(m - 2 - j, j + 1);
    assert n == Block(B, j + 1);
    BlockFits(b, B, j + 1, s);
    BlockAdds(B - 1 - b, b + 1, j + 1);
    BlockAdds(b, 1, j + 1);
    assert n - 1 - r == Block(B - 1 - b, j + 1) + (q - 1 - s);
    BlockDoubles(0, m - 1);
    LowReverses(0, m - 1, r);
    LowReverses(B - 1 - b, j + 1, q - 1 - s);
    XorAssociates(r, Low(m - 1), Low(j + 1));
  }

  lemma {:induction false} LevelAbove(m: nat, perm: seq<nat>, c: nat, r: nat)
    requires m >= 2 && |perm| == Rows(m) && c < Columns(m) && r < Rows(m)
    ensures var k := Xor(r, Mask(m, c));
      k < |perm| && Level(m, perm, c, r) == Rows(m) + (perm[k] + 1) * Sign(r, SignBits(m, c))
  {
    MaskBound(m, c);
    XorBound(r, Mask(m, c), m - 1);
  }

  lemma {:induction false} PowSplit(a: nat, k: nat)
    ensures Pow2(a + k) == Block(Pow2(a), k)
  {
    if k == 0 {
    } else {
      PowSplit(a, k - 1);
      BlockHalved(Pow2(a), k, 0);
    }
  }

  lemma {:induction false} BlockAdds(a: nat, b: nat, k: nat)
    ensures Block(a + b, k) == Block(a, k) + Block(b, k) && Block(1, k) == Pow2(k)
  {
  }

  lemma {:induction false} BlockFits(b: nat, B: nat, k: nat, s: nat)
    requires Block(b, k) + s < Block(B, k)
    ensures b < B
  {
    if b >= B { BlockAdds(B, b - B, k); }
  }

  /** The signs of bit 0 and bit k agree where block and row are both even or both odd. */
  lemma {:induction false} SignOfPair(r: nat, b: nat, k: nat, s: nat)
    requires k > 0 && s < Pow2(k) && r == Block(b, k) + s
    ensures Sign(r, Xor(Pow2(0), Pow2(k))) == if b % 2 == s % 2 then 1 else -1
  {
    hide Sign, Xor, Block;
    SignProduct(r, Pow2(0), Pow2(k));
    BlockHalved(b, k, s);
    BlockAdds(r, 0, 0);
    SignUnfold(r, Pow2(0));
    SignNone(r / 2);
    var h := b / 2;
    BlockAdds(2 * h, b % 2, k);
    BlockHalved(h, k + 1, 0);
    BlockDoubles(h, k);
    SignInBlock(h, k, Block(b % 2, k) + s);
  }

  lemma {:induction false} BlockDoubles(h: nat, k: nat)
    ensures Block(2 * h, k) == Block(h, k + 1) && Block(0, k) == 0 && Block(1, k) == Pow2(k)
  {
  }

  /** `l` of `n` equal steps along a range of width `w`. */
  function Steps(l: real, n: real, w: real): real
    requires n > 0.0
  {
    l / n * w
  }

  /** The value of a design entry between the column's bounds. */
  function DesignValue(m: nat, perm: seq<nat>, c: nat, row: nat, min: real, max: real): real
    requires m >= 2 && |perm| == Rows(m) && c < Columns(m) && row < DesignRows(m)
  {
    min + Steps(Level(m, perm, c, row) as real, Pow2(m) as real, max - min)
  }

  /** Every value lies between the bounds. */
  lemma {:induction false} ValueInRange(m: nat, perm: seq<nat>, c: nat, row: nat, min: real, max: real)
    requires m >= 2 && |perm| == Rows(m) && IsPermutation(perm) && c < Columns(m)
    requires row < DesignRows(m) && min < max
    ensures min <= DesignValue(m, perm, c, row, min, max) <= max
  {
    hide Level, Pow2, Steps;
    LevelInRange(m, perm, c, row);
    FractionInRange(Level(m, perm, c, row) as real, Pow2(m) as real, max - min);
  }

  /** With distinct bounds, different rows get different values. */
  lemma {:induction false} ValuesDiffer(m: nat, perm: seq<nat>, c: nat, row: nat, row': nat, min: real, max: real)
    requires m >= 2 && |perm| == Rows(m) && IsPermutation(perm) && c < Columns(m)
    requires row < DesignRows(m) && row' < DesignRows(m) && min < max && row != row'
    ensures DesignValue(m, perm, c, row, min, max) != DesignValue(m, perm, c, row', min, max)
  {
    hide Level, Pow2, Steps;
    if Level(m, perm, c, row) == Level(m, perm, c, row') { LevelsDiffer(m, perm, c, row, row'); }
    FractionsDiffer(Level(m, perm, c, row) as real, Level(m, perm, c, row') as real, Pow2(m) as real, max - min);
  }

  lemma {:induction false} FractionInRange(l: real, n: real, w: real)
    requires 0.0 <= l <= n && n > 0.0 && w > 0.0
    ensures 0.0 <= Steps(l, n, w) <= w
  {
    var x := l / n;
    assert 0.0 <= x <= 1.0;
    assert (1.0 - x) * w >= 0.0;
  }

  lemma {:induction false} FractionsDiffer(l: real, l': real, n: real, w: real)
    requires l != l' && n > 0.0 && w > 0.0
    ensures Steps(l, n, w) != Steps(l', n, w)
  {
    var x, x' := l / n, l' / n;
    assert x * n == l && x' * n == l';
    assert x != x';
    assert (x - x') * w != 0.0;
  }
}
