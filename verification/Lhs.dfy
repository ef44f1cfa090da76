/** The matrices of the Latin hypercube, built by loops over blocks, rows and columns. */
module Lhs {
  import opened Bits
  import opened LhsSpec

  type Matrix = array2<real>

  // ---- rows and columns inside blocks ----------------------------------------------------

  /** Position `i` of block `p`, for blocks of size `n`. */
  function At(p: nat, n: nat, i: nat): nat { p * n + i }

  lemma {:induction false} Larger(d: nat, n: nat)
    requires d >= 1
    ensures d * n >= n
  {
    assert (d - 1) * n >= 0;
  }

  lemma {:induction false} AtBound(p: nat, n: nat, i: nat, k: nat)
    requires i < n && p < k
    ensures At(p, n, i) < k * n
  {
    Larger(k - p, n);
    assert k * n == p * n + (k - p) * n;
  }

  lemma {:induction false} FromStart(p: nat, n: nat, i: nat)
    ensures At(p, n, i) == At(p, n, 0) + i
  {
  }

  /** A position inside block `p` belongs to no other block. */
  lemma {:induction false} InOneBlock(p: nat, n: nat, i: nat, p': nat)
    requires i < n && At(p, n, 0) <= At(p', n, i) < At(p, n, 0) + n
    ensures p == p'
  {
    if p > p' {
      assert p * n == p' * n + (p - p') * n;
      Larger(p - p', n);
    }
    if p < p' {
      assert p' * n == p * n + (p' - p) * n;
      Larger(p' - p, n);
    }
  }

  ghost predicate BlocksFit(k: nat, n: nat, size: nat) {
    forall p: nat, i: nat {:trigger At(p, n, i)} :: p < k && i < n ==> At(p, n, i) < size
  }

  lemma {:induction false} BlocksAllFit(k: nat, n: nat)
    ensures BlocksFit(k, n, k * n)
  {
    forall p: nat, i: nat | p < k && i < n ensures At(p, n, i) < k * n { AtBound(p, n, i, k); }
  }

  /** Every cell of block (p, q) of `m` is `b` times `a[p, q]`. */
  ghost predicate Block(m: Matrix, a: Matrix, b: Matrix, p: nat, q: nat)
    requires p < a.Length0 && q < a.Length1
    requires BlocksFit(a.Length0, b.Length0, m.Length0) && BlocksFit(a.Length1, b.Length1, m.Length1)
    reads m, a, b
  {
    forall i: nat, j: nat :: i < b.Length0 && j < b.Length1 ==>
      m[At(p, b.Length0, i), At(q, b.Length1, j)] == b[i, j] * a[p, q]
  }

  /** A view of `b`'s size at (x0, y0) becomes a copy of `b`, scaled; nothing else changes. */
  method CopyScaled(m: Matrix, x0: nat, y0: nat, b: Matrix, scale: real)
    requires m != b && x0 + b.Length0 <= m.Length0 && y0 + b.Length1 <= m.Length1
    modifies m
    ensures forall i: nat, j: nat :: i < b.Length0 && j < b.Length1 ==> m[x0 + i, y0 + j] == b[i, j] * scale
    ensures forall x: nat, y: nat ::
      x < m.Length0 && y < m.Length1 && !(x0 <= x < x0 + b.Length0 && y0 <= y < y0 + b.Length1) ==>
      m[x, y] == old(m[x, y])
  {
    for i := 0 to b.Length0
      invariant forall x: nat, y: nat :: x < m.Length0 && y < m.Length1 ==>
        m[x, y] == if x0 <= x < x0 + i && y0 <= y < y0 + b.Length1 then b[x - x0, y - y0] * scale
                   else old(m[x, y])
    {
      for j := 0 to b.Length1
        invariant forall x: nat, y: nat :: x < m.Length0 && y < m.Length1 ==>
          m[x, y] == if (x0 <= x < x0 + i && y0 <= y < y0 + b.Length1) || (x == x0 + i && y0 <= y < y0 + j)
                     then b[x - x0, y - y0] * scale else old(m[x, y])
      {
        m[x0 + i, y0 + j] := b[i, j] * scale;
      }
    }
  }

  /** The cells of block (p, q) of a matrix with blocks of size rb x cb. */
  predicate InBlock(p: nat, q: nat, rb: nat, cb: nat, x: nat, y: nat) {
    At(p, rb, 0) <= x < At(p, rb, 0) + rb && At(q, cb, 0) <= y < At(q, cb, 0) + cb
  }

  lemma {:induction false} OtherBlock(p: nat, q: nat, p': nat, q': nat, rb: nat, cb: nat, i: nat, j: nat)
    requires i < rb && j < cb && (p != p' || q != q')
    ensures !InBlock(p, q, rb, cb, At(p', rb, i), At(q', cb, j))
  {
    if InBlock(p, q, rb, cb, At(p', rb, i), At(q', cb, j)) {
      InOneBlock(p, rb, i, p');
      InOneBlock(q, cb, j, q');
    }
  }

  /** One step of the Kronecker product fills one block and leaves the others alone. */
  method FillBlock(m: Matrix, a: Matrix, b: Matrix, p: nat, q: nat)
    requires p < a.Length0 && q < a.Length1 && m != a && m != b
    requires b.Length0 > 0 && b.Length1 > 0
    requires BlocksFit(a.Length0, b.Length0, m.Length0) && BlocksFit(a.Length1, b.Length1, m.Length1)
    modifies m
    ensures Block(m, a, b, p, q)
    ensures forall p': nat, q': nat ::
      p' < a.Length0 && q' < a.Length1 && (p' != p || q' != q) && old(Block(m, a, b, p', q')) ==> Block(m, a, b, p', q')
  {
    hide At;
    var rb, cb := b.Length0, b.Length1;
    assert At(p, rb, rb - 1) < m.Length0 && At(q, cb, cb - 1) < m.Length1;
    FromStart(p, rb, rb - 1);
    FromStart(q, cb, cb - 1);
    CopyScaled(m, At(p, rb, 0), At(q, cb, 0), b, a[p, q]);
    forall i: nat, j: nat | i < rb && j < cb ensures m[At(p, rb, i), At(q, cb, j)] == b[i, j] * a[p, q] {
      FromStart(p, rb, i);
      FromStart(q, cb, j);
    }
    forall p': nat, q': nat | p' < a.Length0 && q' < a.Length1 && (p' != p || q' != q) && old(Block(m, a, b, p', q'))
      ensures Block(m, a, b, p', q')
    {
      forall i: nat, j: nat | i < rb && j < cb
        ensures m[At(p', rb, i), At(q', cb, j)] == old(m[At(p', rb, i), At(q', cb, j)])
      {
        OtherBlock(p, q, p', q', rb, cb, i, j);
      }
    }
  }

  ghost predicate IsKronecker(m: Matrix, a: Matrix, b: Matrix)
    reads m, a, b
  {
    && m.Length0 == a.Length0 * b.Length0 && m.Length1 == a.Length1 * b.Length1
    && BlocksFit(a.Length0, b.Length0, m.Length0) && BlocksFit(a.Length1, b.Length1, m.Length1)
    && forall p: nat, q: nat :: p < a.Length0 && q < a.Length1 ==> Block(m, a, b, p, q)
  }

  /** The Kronecker product: block (p, q) is `b` times `a[p, q]`. */
  method Kronecker(a: Matrix, b: Matrix) returns (m: Matrix)
    requires b.Length0 > 0 && b.Length1 > 0
    ensures IsKronecker(m, a, b) && fresh(m)
  {
    BlocksAllFit(a.Length0, b.Length0);
    BlocksAllFit(a.Length1, b.Length1);
    m := new real[a.Length0 * b.Length0, a.Length1 * b.Length1]((_, _) => 0.0);
    for p := 0 to a.Length0
      invariant forall p': nat, q: nat :: p' < p && q < a.Length1 ==> Block(m, a, b, p', q)
    {
      for q := 0 to a.Length1
        invariant forall p': nat, q': nat :: p' < p && q' < a.Length1 ==> Block(m, a, b, p', q')
        invariant forall q': nat :: q' < q ==> Block(m, a, b, p, q')
      {
        FillBlock(m, a, b, p, q);
      }
    }
  }

  // ---- bit-flip matrices -------------------------------------------------------------------

  /** Row i of the matrix picks row `i xor mask`. */
  ghost predicate IsFlip(t: Matrix, n: nat, mask: nat)
    reads t
  {
    && t.Length0 == t.Length1 == Pow2(n)
    && forall i: nat, j: nat :: i < Pow2(n) && j < Pow2(n) ==> t[i, j] == if j == Xor(i, mask) then 1.0 else 0.0
  }

  lemma {:induction false} KroneckerCell(m: Matrix, a: Matrix, b: Matrix, i: nat, j: nat)
    requires IsKronecker(m, a, b) && b.Length0 == 2 && i < m.Length0 && j < m.Length1
    requires b.Length1 == 2
    ensures i / 2 < a.Length0 && j / 2 < a.Length1
    ensures m[i, j] == b[i % 2, j % 2] * a[i / 2, j / 2]
  {
    assert Block(m, a, b, i / 2, j / 2);
    assert At(i / 2, 2, i % 2) == i && At(j / 2, 2, j % 2) == j;
  }

  lemma {:induction false} SmallXor(b: nat, bit: nat)
    requires b < 2 && bit < 2
    ensures Xor(b, bit) == (b + bit) % 2
  {
    assert Xor(0, 0) == 0;
  }

  /** Multiplying by I or R from the right appends one bit, kept or flipped. */
  lemma {:induction false} KroneckerFlip(m: Matrix, a: Matrix, b: Matrix, n: nat, mask: nat, bit: nat)
    requires IsKronecker(m, a, b) && IsFlip(a, n, mask) && IsFlip(b, 1, bit) && bit < 2
    ensures IsFlip(m, n + 1, 2 * mask + bit)
  {
    assert Pow2(1) == 2 * Pow2(0);
    assert m.Length0 == m.Length1 == Pow2(n + 1);
    forall i: nat, j: nat | i < Pow2(n + 1) && j < Pow2(n + 1)
      ensures m[i, j] == if j == Xor(i, 2 * mask + bit) then 1.0 else 0.0
    {
      KroneckerCell(m, a, b, i, j);
      XorStep(i, 2 * mask + bit);
      assert (2 * mask + bit) / 2 == mask && (2 * mask + bit) % 2 == bit;
      SmallXor(i % 2, bit);
      var x := Xor(i, 2 * mask + bit);
      assert x / 2 == Xor(i / 2, mask) && x % 2 == Xor(i % 2, bit);
      assert j == x <==> j / 2 == x / 2 && j % 2 == x % 2;
    }
  }

  method Identity2() returns (t: Matrix)
    ensures IsFlip(t, 1, 0) && fresh(t)
  {
    t := new real[2, 2]((i, j) => if i == j then 1.0 else 0.0);
    assert Pow2(1) == 2 * Pow2(0);
    SmallXor(0, 0);
    SmallXor(1, 0);
  }

  method Swap2() returns (t: Matrix)
    ensures IsFlip(t, 1, 1) && fresh(t)
  {
    t := new real[2, 2]((i, j) => if i == j then 0.0 else 1.0);
    assert Pow2(1) == 2 * Pow2(0);
    SmallXor(0, 1);
    SmallXor(1, 1);
  }

  /** A_k of matrixM: m-1-k factors I, then k factors R, flip the k low bits. */
  method FlipMatrix(m: nat, k: nat) returns (t: Matrix)
    requires m >= 2 && 1 <= k <= m - 1
    ensures IsFlip(t, m - 1, Low(k)) && fresh(t)
  {
    var I := Identity2();
    var R := Swap2();
    t := new real[2, 2];
    for i := 1 to m - k
      invariant IsFlip(I, 1, 0) && IsFlip(R, 1, 1) && fresh(t) && (i > 1 ==> IsFlip(t, i - 1, 0))
    {
      if i == 1 {
        t := Identity2();
      } else {
        var t2 := Kronecker(t, I);
        KroneckerFlip(t2, t, I, i - 1, 0, 0);
        t := t2;
      }
    }
    assert Low(0) == 0;
    for i := 1 to k + 1
      invariant IsFlip(R, 1, 1) && fresh(t) && (m - 2 - k + i > 0 ==> IsFlip(t, m - 2 - k + i, Low(i - 1)))
    {
      assert Low(i) == 2 * Low(i - 1) + 1;
      if m - 1 - k == 0 && i == 1 {
        t := Swap2();
        assert Low(1) == 2 * Pow2(0) - 1;
      } else {
        var t2 := Kronecker(t, R);
        KroneckerFlip(t2, t, R, m - 2 - k + i, Low(i - 1), 1);
        t := t2;
      }
    }
  }

  /** A matrix times a vector, written into a column. */
  method MultiplyIntoColumn(a: Matrix, x: array<real>, target: Matrix, c: nat, ghost n: nat, ghost mask: nat)
    requires IsFlip(a, n, mask) && mask < Pow2(n) && x.Length == Pow2(n) == target.Length0 && c < target.Length1
    requires a != target
    modifies target
    ensures forall r: nat :: r < Pow2(n) ==> Xor(r, mask) < Pow2(n) && target[r, c] == x[Xor(r, mask)]
    ensures forall r: nat, c': nat :: r < Pow2(n) && c' < target.Length1 && c' != c ==>
      target[r, c'] == old(target[r, c'])
  {
    for r := 0 to a.Length0
      invariant forall r': nat :: r' < r ==> Xor(r', mask) < Pow2(n) && target[r', c] == x[Xor(r', mask)]
      invariant forall r': nat, c': nat :: r' < Pow2(n) && c' < target.Length1 && c' != c ==>
        target[r', c'] == old(target[r', c'])
    {
      XorBound(r, mask, n);
      var sum := 0.0;
      for j := 0 to a.Length1
        invariant sum == if Xor(r, mask) < j then x[Xor(r, mask)] else 0.0
      {
        sum := sum + a[r, j] * x[j];
      }
      target[r, c] := sum;
    }
  }

  /** One entry of a matrix product whose row of `a` has a single 1. */
  method MultiplyEntry(a: Matrix, b: Matrix, i: nat, j: nat, ghost k: nat) returns (sum: real)
    requires i < a.Length0 && j < b.Length1 && a.Length1 == b.Length0 && k < a.Length1
    requires forall l: nat :: l < a.Length1 ==> a[i, l] == if l == k then 1.0 else 0.0
    ensures sum == b[k, j]
  {
    sum := 0.0;
    for l := 0 to a.Length1
      invariant sum == if k < l then b[k, j] else 0.0
    {
      sum := sum + a[i, l] * b[l, j];
    }
  }

  /** A product of two bit-flip matrices flips the bits in which the masks differ. */
  method Multiply(a: Matrix, b: Matrix, target: Matrix, ghost n: nat, ghost maskA: nat, ghost maskB: nat)
    requires IsFlip(a, n, maskA) && IsFlip(b, n, maskB) && maskA < Pow2(n)
    requires target.Length0 == target.Length1 == Pow2(n) && target != a && target != b
    modifies target
    ensures IsFlip(target, n, Xor(maskA, maskB))
  {
    hide Xor, Pow2;
    ghost var mask := Xor(maskA, maskB);
    for i := 0 to a.Length0
      invariant forall i': nat, j': nat :: i' < i && j' < Pow2(n) ==>
        target[i', j'] == if j' == Xor(i', mask) then 1.0 else 0.0
    {
      XorBound(i, maskA, n);
      XorAssociates(i, maskA, maskB);
      ghost var k := Xor(i, maskA);
      for j := 0 to b.Length1
        invariant forall i': nat, j': nat :: i' < i && j' < Pow2(n) ==>
          target[i', j'] == if j' == Xor(i', mask) then 1.0 else 0.0
        invariant forall j': nat :: j' < j ==>
          target[i, j'] == if j' == Xor(i, mask) then 1.0 else 0.0
      {
        var sum := MultiplyEntry(a, b, i, j, k);
        target[i, j] := sum;
      }
    }
  }

  /** The first `n` columns hold the seed, rows flipped by their masks. */
  ghost predicate FlipColumns(M: Matrix, m: nat, e: seq<real>, n: nat)
    requires m >= 2 && |e| == Rows(m) == M.Length0 && M.Length1 == Columns(m) && n <= Columns(m)
    reads M
  {
    forall r: nat, c: nat :: r < Rows(m) && c < n ==>
      Xor(r, Mask(m, c)) < Rows(m) && M[r, c] == e[Xor(r, Mask(m, c))]
  }

  /** One more column: the seed multiplied by a bit-flip matrix. */
  method AddColumn(t: Matrix, e: array<real>, M: Matrix, m: nat, c: nat)
    requires m >= 2 && e.Length == Rows(m) == M.Length0 && M.Length1 == Columns(m) && c < Columns(m)
    requires t != M && IsFlip(t, m - 1, Mask(m, c)) && FlipColumns(M, m, e[..], c)
    modifies M
    ensures FlipColumns(M, m, e[..], c + 1)
  {
    MaskBound(m, c);
    MultiplyIntoColumn(t, e, M, c, m - 1, Mask(m, c));
  }

  /** matrixM: the seed in column 0, the k low bits flipped in column k, and their complements
      in the last m-2 columns. */
  method MatrixM(m: nat, e: array<real>) returns (M: Matrix)
    requires m >= 2 && e.Length == Rows(m)
    ensures M.Length0 == Rows(m) && M.Length1 == Columns(m)
    ensures FlipColumns(M, m, e[..], Columns(m))
  {
    M := SeedColumn(m, e);
    var A: seq<Matrix> := [];
    for k := 1 to m
      invariant |A| == k - 1 && M !in A && fresh(M) && e[..] == old(e[..])
      invariant forall i :: 0 <= i < k - 1 ==> IsFlip(A[i], m - 1, Low(i + 1))
      invariant FlipColumns(M, m, e[..], k)
    {
      var t := FlipMatrix(m, k);
      AddColumn(t, e, M, m, k);
      A := A + [t];
    }
    AddComplements(m, e, M, A);
  }

  method SeedColumn(m: nat, e: array<real>) returns (M: Matrix)
    requires m >= 2 && e.Length == Rows(m)
    ensures M.Length0 == Rows(m) && M.Length1 == Columns(m) && fresh(M)
    ensures FlipColumns(M, m, e[..], 1)
  {
    M := new real[e.Length, 2 * m - 2]((_, _) => 0.0);
    forall r | 0 <= r < e.Length {
      M[r, 0] := e[r];
    }
    forall r: nat | r < e.Length ensures Xor(r, Mask(m, 0)) == r { XorZero(r); }
  }

  /** The second loop of matrixM: A_(m-1) A_j for j = 1 to m-2. */
  method AddComplements(m: nat, e: array<real>, M: Matrix, A: seq<Matrix>)
    requires m >= 2 && e.Length == Rows(m) == M.Length0 && M.Length1 == Columns(m)
    requires |A| == m - 1 && M !in A
    requires forall i :: 0 <= i < m - 1 ==> IsFlip(A[i], m - 1, Low(i + 1))
    requires FlipColumns(M, m, e[..], m)
    modifies M
    ensures FlipColumns(M, m, e[..], Columns(m))
  {
    var t := new real[e.Length, e.Length]((_, _) => 0.0);
    for j := 0 to m - 2
      invariant fresh(t) && t != M && e[..] == old(e[..])
      invariant FlipColumns(M, m, e[..], m + j)
      invariant forall i :: 0 <= i < m - 1 ==> IsFlip(A[i], m - 1, Low(i + 1))
    {
      MaskBound(m, m - 1);
      Multiply(A[m - 2], A[j], t, m - 1, Low(m - 1), Low(j + 1));
      AddColumn(t, e, M, m, m + j);
    }
  }

  // ---- sign vectors ------------------------------------------------------------------------

  /** A column vector of signs. */
  ghost predicate IsSigns(t: Matrix, n: nat, p: nat)
    reads t
  {
    && t.Length0 == Pow2(n) && t.Length1 == 1
    && forall i: nat :: i < Pow2(n) ==> t[i, 0] == Sign(i, p) as real
  }

  lemma {:induction false} KroneckerSignCell(m: Matrix, a: Matrix, b: Matrix, i: nat)
    requires IsKronecker(m, a, b) && b.Length0 == 2 && b.Length1 == 1 && a.Length1 == 1 && i < m.Length0
    ensures i / 2 < a.Length0 && m.Length1 == 1
    ensures m[i, 0] == b[i % 2, 0] * a[i / 2, 0]
  {
    CellOf(m, a, b, i / 2, i % 2, 0, 0, i, 0);
  }

  lemma {:induction false} CellOf(m: Matrix, a: Matrix, b: Matrix, p: nat, k: nat, q: nat, l: nat, i: nat, j: nat)
    requires IsKronecker(m, a, b) && p < a.Length0 && q < a.Length1 && k < b.Length0 && l < b.Length1
    requires i == p * b.Length0 + k && j == q * b.Length1 + l
    ensures i < m.Length0 && j < m.Length1 && m[i, j] == b[k, l] * a[p, q]
  {
    assert Block(m, a, b, p, q);
    assert At(p, b.Length0, k) == i && At(q, b.Length1, l) == j;
  }

  lemma {:induction false} SignTimes(x: int, y: int, z: int)
    requires x * y == z && (x == 1 || x == -1)
    ensures x as real * y as real == z as real
  {
  }

  lemma {:induction false} SignAppend(i: nat, p: nat, bit: nat)
    requires bit < 2
    ensures Sign(i, 2 * p + bit) == Sign(i / 2, p) * Sign(i % 2, bit)
  {
    SignUnfold(i, 2 * p + bit);
    SignUnfold(i % 2, bit);
    assert (2 * p + bit) / 2 == p && (2 * p + bit) % 2 == bit;
    assert Sign(i % 2 / 2, 0) == 1;
  }

  /** Multiplying by B_i or B_k from the right appends one bit, ignored or signed. */
  lemma {:induction false} KroneckerSigns(m: Matrix, a: Matrix, b: Matrix, n: nat, p: nat, bit: nat)
    requires IsKronecker(m, a, b) && IsSigns(a, n, p) && IsSigns(b, 1, bit) && bit < 2
    ensures IsSigns(m, n + 1, 2 * p + bit)
  {
    assert Pow2(1) == 2 * Pow2(0);
    assert m.Length0 == Pow2(n + 1);
    forall i: nat | i < Pow2(n + 1) ensures m[i, 0] == Sign(i, 2 * p + bit) as real {
      KroneckerSignCell(m, a, b, i);
      SignAppend(i, p, bit);
      SignTimes(Sign(i % 2, bit), Sign(i / 2, p), Sign(i, 2 * p + bit));
    }
  }

  method SignPair(first: real, ghost bit: nat) returns (t: Matrix)
    requires bit < 2 && first == if bit == 1 then -1.0 else 1.0
    ensures IsSigns(t, 1, bit) && fresh(t)
  {
    t := new real[2, 1]((i, _) => if i == 0 then first else 1.0);
    assert Pow2(1) == 2 * Pow2(0);
    SignUnfold(0, bit);
    SignUnfold(1, bit);
  }

  /** The bits selected after `i` factors of column k's product: only factor m-1-k is signed. */
  function Selected(m: nat, k: nat, i: nat): nat
    requires 1 <= k <= m - 1 && 1 <= i <= m - 1
  {
    if i >= m - k then Pow2(i - (m - k)) else 0
  }

  /** Column k of matrixS: m-1 factors, of which one is signed. */
  method SignColumn(m: nat, k: nat) returns (t: Matrix)
    requires m >= 2 && 1 <= k <= m - 1
    ensures IsSigns(t, m - 1, Pow2(k - 1)) && fresh(t)
  {
    hide IsKronecker;
    var Bk := SignPair(-1.0, 1);
    var Bi := SignPair(1.0, 0);
    if k == m - 1 {
      t := SignPair(-1.0, 1);
    } else {
      t := SignPair(1.0, 0);
    }
    for i := 1 to m - 1
      invariant fresh(t) && IsSigns(Bk, 1, 1) && IsSigns(Bi, 1, 0) && IsSigns(t, i, Selected(m, k, i))
    {
      if i != m - 1 - k {
        var t2 := Kronecker(t, Bi);
        KroneckerSigns(t2, t, Bi, i, Selected(m, k, i), 0);
        t := t2;
      } else {
        var t2 := Kronecker(t, Bk);
        KroneckerSigns(t2, t, Bk, i, Selected(m, k, i), 1);
        t := t2;
      }
    }
  }

  ghost predicate SignColumns(S: Matrix, m: nat, n: nat)
    requires m >= 2 && S.Length0 == Rows(m) && S.Length1 == Columns(m) && n <= Columns(m)
    reads S
  {
    forall r: nat, c: nat :: r < Rows(m) && c < n ==> S[r, c] == Sign(r, SignBits(m, c)) as real
  }

  method CopyColumn(S: Matrix, c: nat, t: Matrix)
    requires S != t && c < S.Length1 && t.Length0 == S.Length0 && t.Length1 == 1
    modifies S
    ensures forall r: nat, c': nat :: r < S.Length0 && c' < S.Length1 ==>
      S[r, c'] == if c' == c then t[r, 0] else old(S[r, c'])
  {
    forall r | 0 <= r < S.Length0 {
      S[r, c] := t[r, 0];
    }
  }

  method MultiplyColumns(S: Matrix, c: nat, a: nat, b: nat)
    requires a < c < S.Length1 && b < c
    modifies S
    ensures forall r: nat, c': nat :: r < S.Length0 && c' < S.Length1 ==>
      S[r, c'] == if c' == c then old(S[r, a]) * old(S[r, b]) else old(S[r, c'])
  {
    forall r | 0 <= r < S.Length0 {
      S[r, c] := S[r, a] * S[r, b];
    }
  }

  lemma {:induction false} ProductSigns(m: nat, j: nat, r: nat)
    requires m >= 2 && j < m - 2
    ensures Sign(r, SignBits(m, 1)) as real * Sign(r, SignBits(m, j + 2)) as real == Sign(r, SignBits(m, m + j)) as real
  {
    hide Sign, Xor, Pow2;
    var p, q := Pow2(0), Pow2(j + 1);
    assert SignBits(m, 1) == p && SignBits(m, j + 2) == q && SignBits(m, m + j) == Xor(p, q);
    SignProduct(r, p, q);
    SignTimes(Sign(r, p), Sign(r, q), Sign(r, Xor(p, q)));
  }

  /** One of the last columns: column 1 times column j+2. */
  method AddProduct(S: Matrix, m: nat, j: nat)
    requires m >= 2 && j < m - 2 && S.Length0 == Rows(m) && S.Length1 == Columns(m)
    requires SignColumns(S, m, m + j)
    modifies S
    ensures SignColumns(S, m, m + j + 1)
  {
    hide Sign, SignBits;
    var c := m + j;
    MultiplyColumns(S, c, 1, j + 2);
    forall r: nat | r < Rows(m) ensures S[r, c] == Sign(r, SignBits(m, c)) as real {
      ProductSigns(m, j, r);
    }
  }

  /** matrixS: ones, the m-1 single-bit sign columns, and products of column 1 with the others. */
  method MatrixS(m: nat) returns (S: Matrix)
    requires m >= 2
    ensures S.Length0 == Rows(m) && S.Length1 == Columns(m)
    ensures SignColumns(S, m, Columns(m))
  {
    S := new real[Pow2(m - 1), 2 * m - 2]((_, _) => 1.0);
    for k := 1 to m
      invariant fresh(S) && SignColumns(S, m, k)
    {
      var t := SignColumn(m, k);
      CopyColumn(S, k, t);
    }
    for j := 0 to m - 2
      invariant fresh(S) && SignColumns(S, m, m + j)
    {
      AddProduct(S, m, j);
    }
  }
}
