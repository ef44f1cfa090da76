/** Exclusive or on row numbers, bit signs, and sums over all rows. */
module Bits {

  function Pow2(n: nat): (p: nat)
    ensures p > 0
  {
    if n == 0 then 1 else 2 * Pow2(n - 1)
  }

  function Xor(a: nat, b: nat): nat
    decreases a + b
  {
    if a == 0 && b == 0 then 0 else 2 * Xor(a / 2, b / 2) + (a % 2 + b % 2) % 2
  }

  /** The `k` lowest bits. */
  function Low(k: nat): nat { Pow2(k) - 1 }

  lemma {:induction false} XorStep(a: nat, b: nat)
    ensures Xor(a, b) / 2 == Xor(a / 2, b / 2) && Xor(a, b) % 2 == (a % 2 + b % 2) % 2
  {
  }

  lemma {:induction false} XorBound(a: nat, b: nat, n: nat)
    requires a < Pow2(n) && b < Pow2(n)
    ensures Xor(a, b) < Pow2(n)
  {
    if n == 0 {
    } else {
      XorBound(a / 2, b / 2, n - 1);
    }
  }

  lemma {:induction false} XorCommutes(a: nat, b: nat)
    ensures Xor(a, b) == Xor(b, a)
    decreases a + b
  {
    if a == 0 && b == 0 {
    } else {
      XorCommutes(a / 2, b / 2);
    }
  }

  lemma {:induction false} BitSum(x: nat, y: nat, z: nat)
    ensures ((x % 2 + y % 2) % 2 + z % 2) % 2 == (x % 2 + (y % 2 + z % 2) % 2) % 2
  {
  }

  lemma {:induction false} XorAssociates(a: nat, b: nat, c: nat)
    ensures Xor(Xor(a, b), c) == Xor(a, Xor(b, c))
    decreases a + b + c
  {
    hide Xor;
    if a == 0 && b == 0 && c == 0 {
      XorSelf(0);
    } else {
      var l, r := Xor(Xor(a, b), c), Xor(a, Xor(b, c));
      XorAssociates(a / 2, b / 2, c / 2);
      XorStep(a, b);
      XorStep(b, c);
      XorStep(Xor(a, b), c);
      XorStep(a, Xor(b, c));
      assert l / 2 == r / 2;
      BitSum(a, b, c);
      assert l % 2 == r % 2;
    }
  }

  lemma {:induction false} XorZero(a: nat)
    ensures Xor(a, 0) == a
  {
    if a == 0 {
    } else {
      XorZero(a / 2);
    }
  }

  lemma {:induction false} XorSelf(a: nat)
    ensures Xor(a, a) == 0
  {
    if a == 0 {
    } else {
      XorSelf(a / 2);
    }
  }

  /** Flipping twice restores the number. */
  lemma {:induction false} XorInvolution(a: nat, b: nat)
    ensures Xor(Xor(a, b), b) == a
  {
    XorAssociates(a, b, b);
    XorSelf(b);
    XorZero(a);
  }

  /** Flipping by the difference of two masks exchanges their effects. */
  lemma {:induction false} XorExchange(r: nat, a: nat, b: nat)
    ensures Xor(Xor(r, Xor(a, b)), a) == Xor(r, b)
    ensures Xor(Xor(r, Xor(a, b)), b) == Xor(r, a)
  {
    XorAssociates(r, Xor(a, b), a);
    XorAssociates(r, Xor(a, b), b);
    XorInvolution(a, b);
    XorCommutes(a, b);
    XorInvolution(b, a);
  }

  // ---- signs ---------------------------------------------------------------------------

  /** The product of the signs of the bits of `r` that `p` selects: 1 is positive. */
  function Sign(r: nat, p: nat): (s: int)
    ensures s == 1 || s == -1
    decreases p
  {
    if p == 0 then 1
    else Sign(r / 2, p / 2) * (if p % 2 == 1 && r % 2 == 0 then -1 else 1)
  }

  /** Minus one to the number of bits `d` and `p` share. */
  function Flip(d: nat, p: nat): (s: int)
    ensures s == 1 || s == -1
    decreases p
  {
    if p == 0 then 1
    else Flip(d / 2, p / 2) * (if p % 2 == 1 && d % 2 == 1 then -1 else 1)
  }

  lemma {:induction false} SignXor(r: nat, d: nat, p: nat)
    ensures Sign(Xor(r, d), p) == Sign(r, p) * Flip(d, p)
    decreases p
  {
    if p == 0 {
    } else {
      XorStep(r, d);
      SignXor(r / 2, d / 2, p / 2);
    }
  }

  lemma {:induction false} SignProduct(r: nat, p: nat, q: nat)
    ensures Sign(r, p) * Sign(r, q) == Sign(r, Xor(p, q))
    decreases p + q
  {
    if p == 0 && q == 0 {
    } else {
      hide Sign, Xor;
      XorStep(p, q);
      SignProduct(r / 2, p / 2, q / 2);
      SignUnfold(r, p);
      SignUnfold(r, q);
      SignUnfold(r, Xor(p, q));
      TwoSigns(Sign(r / 2, p / 2), Sign(r / 2, q / 2), p % 2 == 1 && r % 2 == 0, q % 2 == 1 && r % 2 == 0);
    }
  }

  lemma {:induction false} TwoSigns(a: int, b: int, x: bool, y: bool)
    ensures (a * (if x then -1 else 1)) * (b * (if y then -1 else 1)) == (a * b) * (if x != y then -1 else 1)
  {
  }

  lemma {:induction false} SignUnfold(r: nat, p: nat)
    ensures Sign(r, p) == Sign(r / 2, p / 2) * (if p % 2 == 1 && r % 2 == 0 then -1 else 1)
  {
  }

  lemma {:induction false} FlipUnfold(d: nat, p: nat)
    ensures Flip(d, p) == Flip(d / 2, p / 2) * (if p % 2 == 1 && d % 2 == 1 then -1 else 1)
  {
  }

  lemma {:induction false} FlipXorRight(d: nat, p: nat, q: nat)
    ensures Flip(d, Xor(p, q)) == Flip(d, p) * Flip(d, q)
    decreases p + q
  {
    if p == 0 && q == 0 {
      XorSelf(0);
      FlipNone(d);
    } else {
      hide Flip, Xor;
      XorStep(p, q);
      FlipXorRight(d / 2, p / 2, q / 2);
      FlipUnfold(d, p);
      FlipUnfold(d, q);
      FlipUnfold(d, Xor(p, q));
    }
  }

  lemma {:induction false} FlipXorLeft(d: nat, d': nat, p: nat)
    ensures Flip(Xor(d, d'), p) == Flip(d, p) * Flip(d', p)
    decreases p
  {
    if p == 0 {
    } else {
      XorStep(d, d');
      FlipXorLeft(d / 2, d' / 2, p / 2);
    }
  }

  /** The low bits meet a single bit exactly when it is among them. */
  lemma {:induction false} FlipLow(k: nat, b: nat)
    ensures Flip(Low(k), Pow2(b)) == if b < k then -1 else 1
  {
    if k == 0 {
      FlipZero(Pow2(b));
    } else {
      hide Flip, Low, Pow2;
      LowHalved(k);
      PowHalved(b);
      FlipUnfold(Low(k), Pow2(b));
      if b == 0 {
        FlipNone(Low(k - 1));
      } else {
        FlipLow(k - 1, b - 1);
      }
    }
  }

  lemma {:induction false} LowHalved(k: nat)
    requires k > 0
    ensures Low(k) / 2 == Low(k - 1) && Low(k) % 2 == 1
  {
    assert Low(k) == 2 * Low(k - 1) + 1;
  }

  lemma {:induction false} PowHalved(b: nat)
    ensures b == 0 ==> Pow2(b) / 2 == 0 && Pow2(b) % 2 == 1
    ensures b > 0 ==> Pow2(b) / 2 == Pow2(b - 1) && Pow2(b) % 2 == 0
  {
    if b > 0 { assert Pow2(b) == 2 * Pow2(b - 1); }
  }

  // ---- blocks of rows ------------------------------------------------------------------

  /** The first row of block `b` of 2^k rows. */
  function Block(b: nat, k: nat): nat { b * Pow2(k) }

  lemma {:induction false} BlockHalved(b: nat, k: nat, s: nat)
    requires k > 0
    ensures Block(b, k) == 2 * Block(b, k - 1)
    ensures (Block(b, k) + s) / 2 == Block(b, k - 1) + s / 2 && (Block(b, k) + s) % 2 == s % 2
  {
  }

  /** Flipping the low k bits reverses each block of 2^k rows. */
  lemma {:induction false} LowReverses(b: nat, k: nat, s: nat)
    requires s < Pow2(k)
    ensures Xor(Block(b, k) + s, Low(k)) == Block(b, k) + (Pow2(k) - 1 - s)
  {
    if k == 0 {
      XorZero(b);
    } else {
      assert Pow2(k) == 2 * Pow2(k - 1);
      hide Xor, Block, Low, Pow2;
      var r := Block(b, k) + s;
      BlockHalved(b, k, s);
      LowHalved(k);
      XorStep(r, Low(k));
      LowReverses(b, k - 1, s / 2);
      TwiceAndBit(Xor(r, Low(k)), Block(b, k - 1), Pow2(k - 1), s);
    }
  }

  lemma {:induction false} TwiceAndBit(x: nat, b: nat, p: nat, s: nat)
    requires x / 2 == b + (p - 1 - s / 2) && x % 2 == (s % 2 + 1) % 2
    ensures x == 2 * b + (2 * p - 1 - s)
  {
  }

  /** The sign of bit k: negative in the first half of each block of 2^(k+1) rows. */
  lemma {:induction false} SignInBlock(b: nat, k: nat, s: nat)
    requires s < Pow2(k + 1)
    ensures Sign(Block(b, k + 1) + s, Pow2(k)) == if s < Pow2(k) then -1 else 1
  {
    hide Block, Sign;
    var r := Block(b, k + 1) + s;
    assert Pow2(k + 1) == 2 * Pow2(k);
    BlockHalved(b, k + 1, s);
    if k == 0 {
      SignOfParity(r);
    } else {
      assert Pow2(k) == 2 * Pow2(k - 1);
      hide Pow2;
      SignShifted(r, k);
      var h := s / 2;
      HalfBelow(s, h, Pow2(k));
      HalfBelow(s, h, Pow2(k - 1));
      SignInBlock(b, k - 1, h);
    }
  }

  lemma {:induction false} HalfBelow(s: nat, h: nat, p: nat)
    requires h == s / 2
    ensures h < p <==> s < 2 * p
  {
  }

  lemma {:induction false} SignOfParity(r: nat)
    ensures Sign(r, Pow2(0)) == if r % 2 == 0 then -1 else 1
  {
    SignUnfold(r, 1);
    SignNone(r / 2);
  }

  /** A higher bit is a lower bit of half the number. */
  lemma {:induction false} SignShifted(r: nat, k: nat)
    requires k > 0
    ensures Sign(r, Pow2(k)) == Sign(r / 2, Pow2(k - 1))
  {
    PowHalved(k);
    hide Pow2;
    SignUnfold(r, Pow2(k));
  }

  lemma {:induction false} SignNone(r: nat)
    ensures Sign(r, 0) == 1
  {
  }

  lemma {:induction false} FlipNone(d: nat)
    ensures Flip(d, 0) == 1
  {
  }

  lemma {:induction false} FlipZero(p: nat)
    ensures Flip(0, p) == 1
  {
    if p == 0 {
    } else {
      FlipZero(p / 2);
    }
  }

  // ---- sums over rows --------------------------------------------------------------------

  function SumTo(n: nat, f: nat -> real): real {
    if n == 0 then 0.0 else SumTo(n - 1, f) + f(n - 1)
  }

  lemma {:induction false} SumEqual(n: nat, f: nat -> real, g: nat -> real)
    requires forall i: nat :: i < n ==> f(i) == g(i)
    ensures SumTo(n, f) == SumTo(n, g)
  {
    if n == 0 {
    } else {
      SumEqual(n - 1, f, g);
    }
  }

  lemma {:induction false} SumNegated(n: nat, f: nat -> real, g: nat -> real)
    requires forall i: nat :: i < n ==> f(i) == -g(i)
    ensures SumTo(n, f) == -SumTo(n, g)
  {
    if n == 0 {
    } else {
      SumNegated(n - 1, f, g);
    }
  }

  /** Adding up in pairs. */
  function Paired(f: nat -> real): nat -> real {
    (q: nat) => f(2 * q) + f(2 * q + 1)
  }

  lemma {:induction false} SumPaired(n: nat, f: nat -> real)
    ensures SumTo(2 * n, f) == SumTo(n, Paired(f))
  {
    if n == 0 {
    } else {
      SumPaired(n - 1, f);
      assert SumTo(2 * n, f) == SumTo(2 * n - 2, f) + f(2 * n - 2) + f(2 * n - 1);
    }
  }

  lemma {:induction false} PairFlipped(f: nat -> real, d: nat, q: nat)
    ensures f(Xor(2 * q, d)) + f(Xor(2 * q + 1, d)) == Paired(f)(Xor(q, d / 2))
  {
    XorStep(2 * q, d);
    XorStep(2 * q + 1, d);
    var x := Xor(q, d / 2);
    assert (2 * q) / 2 == q && (2 * q + 1) / 2 == q;
    assert Xor(2 * q, d) == 2 * x + d % 2 && Xor(2 * q + 1, d) == 2 * x + (1 + d % 2) % 2;
  }

  /** Flipping bits of the row number permutes the rows, so it does not change a sum. */
  lemma {:induction false} SumFlipped(n: nat, f: nat -> real, d: nat)
    requires d < Pow2(n)
    ensures SumTo(Pow2(n), (r: nat) => f(Xor(r, d))) == SumTo(Pow2(n), f)
  {
    hide Xor;
    var h := (r: nat) => f(Xor(r, d));
    if n == 0 {
      XorSelf(0);
      assert SumTo(1, h) == SumTo(0, h) + h(0);
      assert SumTo(1, f) == SumTo(0, f) + f(0);
    } else {
      var N, g := Pow2(n - 1), Paired(f);
      SumPaired(N, h);
      SumPaired(N, f);
      SumFlipped(n - 1, g, d / 2);
      var gd := (q: nat) => g(Xor(q, d / 2));
      forall q: nat | q < N ensures Paired(h)(q) == gd(q) {
        PairFlipped(f, d, q);
        assert Paired(h)(q) == f(Xor(2 * q, d)) + f(Xor(2 * q + 1, d));
      }
      SumEqual(N, Paired(h), gd);
    }
  }

  /** If flipping by `d` negates every summand, the sum vanishes. */
  lemma {:induction false} SumCancels(n: nat, f: nat -> real, d: nat)
    requires d < Pow2(n)
    requires forall r: nat :: r < Pow2(n) ==> f(Xor(r, d)) == -f(r)
    ensures SumTo(Pow2(n), f) == 0.0
  {
    SumFlipped(n, f, d);
    SumNegated(Pow2(n), (r: nat) => f(Xor(r, d)), f);
  }
}
