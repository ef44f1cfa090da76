/** The randomised simplex step: a threshold is found by repeatedly splitting a set of indices
    at a random element, and every component is reduced by it. */
module Simplex {
  import opened RealSums

  // ---- sums over marked components ---------------------------------------------------------

  function Marked(p: seq<real>, marks: seq<bool>): real
    requires |p| == |marks|
  {
    if p == [] then 0.0
    else Marked(p[..|p| - 1], marks[..|p| - 1]) + if marks[|p| - 1] then p[|p| - 1] else 0.0
  }

  function Marks(marks: seq<bool>): nat {
    if marks == [] then 0 else Marks(marks[..|marks| - 1]) + if marks[|marks| - 1] then 1 else 0
  }

  lemma {:induction false} MarkOne(p: seq<real>, marks: seq<bool>, i: nat)
    requires |p| == |marks| && i < |p| && !marks[i]
    ensures Marked(p, marks[i := true]) == Marked(p, marks) + p[i]
    ensures Marks(marks[i := true]) == Marks(marks) + 1
  {
    var n, m := |p| - 1, marks[i := true];
    if i < n {
      MarkOne(p[..n], marks[..n], i);
      assert m[..n] == marks[..n][i := true];
    } else {
      assert m[..n] == marks[..n];
    }
  }

  /** Marks every index of a list. */
  function MarkAll(marks: seq<bool>, s: seq<nat>): (r: seq<bool>)
    requires forall j :: 0 <= j < |s| ==> s[j] < |marks|
    ensures |r| == |marks|
    decreases |s|
  {
    if s == [] then marks else MarkAll(marks[s[0] := true], s[1..])
  }

  function SumAt(p: seq<real>, s: seq<nat>): real
    requires forall j :: 0 <= j < |s| ==> s[j] < |p|
  {
    if s == [] then 0.0 else p[s[0]] + SumAt(p, s[1..])
  }

  ghost predicate Ascending(s: seq<nat>) {
    forall i, j :: 0 <= i < j < |s| ==> s[i] < s[j]
  }

  lemma {:induction false} MarkMany(p: seq<real>, marks: seq<bool>, s: seq<nat>)
    requires |p| == |marks| && Ascending(s)
    requires forall j :: 0 <= j < |s| ==> s[j] < |marks| && !marks[s[j]]
    ensures Marked(p, MarkAll(marks, s)) == Marked(p, marks) + SumAt(p, s)
    ensures Marks(MarkAll(marks, s)) == Marks(marks) + |s|
    decreases |s|
  {
    if s == [] {
    } else {
      MarkOne(p, marks, s[0]);
      MarkMany(p, marks[s[0] := true], s[1..]);
    }
  }

  lemma {:induction false} MarkAllAt(marks: seq<bool>, s: seq<nat>, i: nat)
    requires i < |marks| && forall j :: 0 <= j < |s| ==> s[j] < |marks|
    ensures MarkAll(marks, s)[i] == (marks[i] || i in s)
    decreases |s|
  {
    if s == [] {
    } else {
      MarkAllAt(marks[s[0] := true], s[1..], i);
      assert s == [s[0]] + s[1..];
    }
  }

  /** How far the marked components exceed `x`, added up. */
  function Surplus(p: seq<real>, marks: seq<bool>, x: real): real
    requires |p| == |marks|
  {
    if p == [] then 0.0
    else Surplus(p[..|p| - 1], marks[..|p| - 1], x) + if marks[|p| - 1] then p[|p| - 1] - x else 0.0
  }

  lemma {:induction false} SurplusIs(p: seq<real>, marks: seq<bool>, x: real)
    requires |p| == |marks|
    ensures Surplus(p, marks, x) == Marked(p, marks) - Times(Marks(marks), x)
  {
    hide Times;
    if p == [] {
      TimesNext(0, x);
    } else {
      SurplusIs(p[..|p| - 1], marks[..|p| - 1], x);
      TimesNext(Marks(marks[..|p| - 1]), x);
    }
  }

  lemma {:induction false} NothingMarked(p: seq<real>, marks: seq<bool>)
    requires |p| == |marks| && forall i :: 0 <= i < |p| ==> !marks[i]
    ensures Marked(p, marks) == 0.0 && Marks(marks) == 0
  {
    if p == [] {
    } else {
      NothingMarked(p[..|p| - 1], marks[..|p| - 1]);
    }
  }

  // ---- the result --------------------------------------------------------------------------

  function Projected(p: seq<real>, theta: real, b: real): (r: seq<real>)
    ensures |r| == |p| && forall i :: 0 <= i < |r| ==> r[i] == Max(p[i] - theta, b)
  {
    seq(|p|, i requires 0 <= i < |p| => Max(p[i] - theta, b))
  }

  /** The threshold at which the marked components, reduced by it, add up to `z`. */
  ghost predicate Threshold(p: seq<real>, marks: seq<bool>, z: real, theta: real) {
    |p| == |marks| && Marks(marks) >= 1 && Marked(p, marks) - Times(Marks(marks), theta) == z
  }

  /** Do the marks separate the components above the threshold from those below? */
  ghost predicate Separates(p: seq<real>, marks: seq<bool>, theta: real)
    requires |p| == |marks|
  {
    forall i :: 0 <= i < |p| ==> if marks[i] then p[i] >= theta else p[i] <= theta
  }

  /** What one component adds to the excess over the marked components. */
  function Excess(x: real, mark: bool, theta: real): real {
    Max(x - theta, 0.0) - if mark then x - theta else 0.0
  }

  lemma {:induction false} ExcessAtOne(x: real, mark: bool, theta: real)
    ensures Excess(x, mark, theta) >= 0.0
    ensures Excess(x, mark, theta) == 0.0 <==> if mark then x >= theta else x <= theta
  {
  }

  /** Cutting off at zero only adds, and adds nothing exactly where the marks separate. */
  lemma {:induction false} CutOff(p: seq<real>, marks: seq<bool>, theta: real)
    requires |p| == |marks|
    ensures Sum(Projected(p, theta, 0.0)) >= Marked(p, marks) - Times(Marks(marks), theta)
    ensures Sum(Projected(p, theta, 0.0)) == Marked(p, marks) - Times(Marks(marks), theta)
      <==> Separates(p, marks, theta)
  {
    hide Times, Separates, Excess;
    if p == [] {
      TimesNext(0, theta);
      SeparatesSnoc(p, marks, theta);
    } else {
      var n := |p| - 1;
      CutOff(p[..n], marks[..n], theta);
      TimesNext(Marks(marks[..n]), theta);
      SeparatesSnoc(p, marks, theta);
      ExcessAtOne(p[n], marks[n], theta);
      CutOffSnoc(p, marks, theta);
    }
  }

  lemma {:induction false} CutOffSnoc(p: seq<real>, marks: seq<bool>, theta: real)
    requires |p| == |marks| > 0
    ensures var n := |p| - 1;
      Sum(Projected(p, theta, 0.0)) - Sum(Projected(p[..n], theta, 0.0))
      == Excess(p[n], marks[n], theta) + if marks[n] then p[n] - theta else 0.0
  {
    assert Projected(p, theta, 0.0)[..|p| - 1] == Projected(p[..|p| - 1], theta, 0.0);
  }

  lemma {:induction false} SeparatesSnoc(p: seq<real>, marks: seq<bool>, theta: real)
    requires |p| == |marks|
    ensures p == [] ==> Separates(p, marks, theta)
    ensures p != [] ==>
      var n := |p| - 1;
      Separates(p, marks, theta) <==>
        Separates(p[..n], marks[..n], theta) && (if marks[n] then p[n] >= theta else p[n] <= theta)
  {
  }

  lemma {:induction false} TimesNext(n: int, x: real)
    ensures Times(n + 1, x) == Times(n, x) + x && Times(0, x) == 0.0
  {
  }

  /** The result is non-negative and adds up to at least z; it adds up to z, and so lies on the
      simplex, if and only if the accepted indices are those of the components above the
      threshold. */
  lemma {:induction false} ProjectedSum(p: seq<real>, marks: seq<bool>, z: real, theta: real)
    requires Threshold(p, marks, z, theta)
    ensures forall i :: 0 <= i < |p| ==> Projected(p, theta, 0.0)[i] >= 0.0
    ensures Sum(Projected(p, theta, 0.0)) >= z
    ensures Sum(Projected(p, theta, 0.0)) == z <==> Separates(p, marks, theta)
  {
    CutOff(p, marks, theta);
  }

  // ---- the loop ----------------------------------------------------------------------------

  /** remove_copy_if: the elements not below `x`, and the elements below `x`. */
  function NotLess(u: seq<nat>, x: nat): seq<nat> {
    if u == [] then [] else (if u[0] < x then [] else [u[0]]) + NotLess(u[1..], x)
  }

  function Less(u: seq<nat>, x: nat): seq<nat> {
    if u == [] then [] else (if u[0] >= x then [] else [u[0]]) + Less(u[1..], x)
  }

  /** In an ascending list the split is at the chosen position. */
  lemma {:induction false} SplitAt(u: seq<nat>, k: nat)
    requires Ascending(u) && k < |u|
    ensures NotLess(u, u[k]) == u[k..] && Less(u, u[k]) == u[..k]
  {
    if k == 0 {
      AllAbove(u, u[0]);
    } else {
      SplitAt(u[1..], k - 1);
      assert u[..k] == [u[0]] + u[1..][..k - 1];
    }
  }

  lemma {:induction false} AllAbove(u: seq<nat>, x: nat)
    requires forall i :: 0 <= i < |u| ==> u[i] >= x
    ensures NotLess(u, x) == u && Less(u, x) == []
  {
    if u == [] {
    } else {
      AllAbove(u[1..], x);
    }
  }

  /** The indices still undecided: ascending, in range and not marked. */
  ghost predicate Undecided(u: seq<nat>, marks: seq<bool>) {
    Ascending(u) && forall j :: 0 <= j < |u| ==> u[j] < |marks| && !marks[u[j]]
  }

  method SumOfComponents(p: array<real>, g: seq<nat>) returns (sum: real)
    requires forall j :: 0 <= j < |g| ==> g[j] < p.Length
    ensures sum == SumAt(p[..], g)
  {
    sum := 0.0;
    var i := |g|;
    while i > 0
      invariant 0 <= i <= |g| && sum == SumAt(p[..], g[i..])
    {
      i := i - 1;
      assert g[i..][1..] == g[i + 1..];
      sum := p[g[i]] + sum;
    }
    assert g[0..] == g;
  }

  /** The loop over values: a random element of `u` is chosen; it and all undecided indices
      behind it are accepted together if the surplus over it stays below z, otherwise it alone
      is dropped. */
  function Accepted(p: seq<real>, z: real, rng: nat -> nat, t: nat, u: seq<nat>, marks: seq<bool>): (r: seq<bool>)
    requires |p| == |marks| && forall j :: 0 <= j < |u| ==> u[j] < |p|
    ensures |r| == |p|
    decreases |u|
  {
    if u == [] then marks
    else
      var k := rng(t) % |u|;
      var marks' := MarkAll(marks, u[k..]);
      if Surplus(p, marks', p[u[k]]) < z then Accepted(p, z, rng, t + 1, u[..k], marks')
      else Accepted(p, z, rng, t + 1, u[..k] + u[k + 1..], marks)
  }

  function AllIndices(n: nat): seq<nat> { seq(n, i => i) }

  function NoMarks(n: nat): seq<bool> { seq(n, _ => false) }

  /** The indices that projectionDuchi accepts. */
  function AcceptedIndices(p: seq<real>, z: real, rng: nat -> nat): (r: seq<bool>)
    ensures |r| == |p|
  {
    Accepted(p, z, rng, 0, AllIndices(|p|), NoMarks(|p|))
  }

  lemma {:induction false} RealTimes(n: int, x: real, r: real)
    requires r == n as real
    ensures Times(n, x) == r * x
  {
  }

  /** An element alone has no surplus over itself, so the last one left is accepted. */
  lemma {:induction false} SingleAccepted(p: seq<real>, marks: seq<bool>, i: nat)
    requires |p| == |marks| && i < |p| && Marks(marks) == 0 && !marks[i] && Marked(p, marks) == 0.0
    ensures Surplus(p, MarkAll(marks, [i]), p[i]) == 0.0
  {
    MarkMany(p, marks, [i]);
    SurplusIs(p, MarkAll(marks, [i]), p[i]);
    assert SumAt(p, [i]) == p[i] + SumAt(p, []);
    TimesNext(0, p[i]);
  }

  /** The loop's sums are those of the marked components. */
  lemma {:induction false} TestIsSurplus(p: seq<real>, marks: seq<bool>, g: seq<nat>, s: real, rho: real,
      x: real, z: real)
    requires |p| == |marks| && Undecided(g, marks) && s == Marked(p, marks) && rho == Marks(marks) as real
    ensures s + SumAt(p, g) == Marked(p, MarkAll(marks, g)) && rho + |g| as real == Marks(MarkAll(marks, g)) as real
    ensures StaysBelow(s + SumAt(p, g), rho + |g| as real, x, z) <==> Surplus(p, MarkAll(marks, g), x) < z
  {
    hide Times, Marked, Marks, Surplus, MarkAll, SumAt;
    MarkMany(p, marks, g);
    SurplusIs(p, MarkAll(marks, g), x);
    RealTimes(Marks(MarkAll(marks, g)), x, rho + |g| as real);
  }

  /** The loop's test, for the sum and number of accepted components and one of value x. */
  predicate StaysBelow(s: real, rho: real, x: real, z: real) {
    s - rho * x < z
  }

  lemma {:induction false} StillUndecided(u: seq<nat>, marks: seq<bool>, k: nat)
    requires Undecided(u, marks) && k < |u|
    ensures Undecided(u[k..], marks)
    ensures Undecided(u[..k], MarkAll(marks, u[k..]))
    ensures Undecided(u[..k] + u[k + 1..], marks)
  {
    forall j | 0 <= j < k ensures !MarkAll(marks, u[k..])[u[j]] {
      MarkAllAt(marks, u[k..], u[j]);
    }
  }

  /** The while loop, for any random choices. */
  method Accept(p: array<real>, z: real, rng: nat -> nat) returns (s: real, rho: real)
    requires p.Length >= 1 && z > 0.0
    ensures var marks := AcceptedIndices(p[..], z, rng);
      && s == Marked(p[..], marks) && rho == Marks(marks) as real && rho >= 1.0
  {
    hide Marked, Marks, Surplus, MarkAll, Undecided, NotLess, Less, Accepted, StaysBelow, SumAt, AcceptedIndices;
    s, rho := 0.0, 0.0;
    var n := p.Length;
    var u: seq<nat> := seq(n, i => i);
    ghost var marks, values := NoMarks(n), p[..];
    NothingMarked(values, marks);
    Untouched(n);
    StartOfLoop(values, z, rng);
    var t := 0;
    while |u| > 0
      invariant Undecided(u, marks) && |marks| == n && forall j :: 0 <= j < |u| ==> u[j] < n
      invariant s == Marked(values, marks) && rho == Marks(marks) as real
      invariant Marks(marks) == 0 ==> |u| > 0
      invariant Accepted(values, z, rng, t, u, marks) == AcceptedIndices(values, z, rng)
      decreases |u|
    {
      var k := rng(t) % |u|;
      t := t + 1;
      IsAscending(u, marks);
      SplitAt(u, k);
      StillUndecided(u, marks, k);
      var g, l := NotLess(u, u[k]), Less(u, u[k]);
      var deltaRho := |g| as real;
      var deltaS := SumOfComponents(p, g);
      TestIsSurplus(values, marks, g, s, rho, p[u[k]], z);
      AcceptedStep(values, z, rng, t - 1, u, marks);
      if StaysBelow(s + deltaS, rho + deltaRho, p[u[k]], z) {
        marks := MarkAll(marks, g);
        s, rho, u := s + deltaS, rho + deltaRho, l;
      } else {
        if |u| == 1 && Marks(marks) == 0 { LastIsAccepted(values, marks, u, z); }
        u := u[..k] + u[k + 1..];
      }
    }
    AcceptedEnd(values, z, rng, t, marks);
  }

  lemma {:induction false} AcceptedStep(p: seq<real>, z: real, rng: nat -> nat, t: nat, u: seq<nat>, marks: seq<bool>)
    requires |p| == |marks| && u != [] && forall j :: 0 <= j < |u| ==> u[j] < |p|
    ensures var k := rng(t) % |u|;
      var marks' := MarkAll(marks, u[k..]);
      Accepted(p, z, rng, t, u, marks) ==
        if Surplus(p, marks', p[u[k]]) < z then Accepted(p, z, rng, t + 1, u[..k], marks')
        else Accepted(p, z, rng, t + 1, u[..k] + u[k + 1..], marks)
  {
  }

  lemma {:induction false} AcceptedEnd(p: seq<real>, z: real, rng: nat -> nat, t: nat, marks: seq<bool>)
    requires |p| == |marks|
    ensures Accepted(p, z, rng, t, [], marks) == marks
  {
  }

  lemma {:induction false} StartOfLoop(p: seq<real>, z: real, rng: nat -> nat)
    ensures AcceptedIndices(p, z, rng) == Accepted(p, z, rng, 0, AllIndices(|p|), NoMarks(|p|))
  {
  }

  lemma {:induction false} Untouched(n: nat)
    ensures Undecided(AllIndices(n), NoMarks(n)) && AllIndices(n) == seq(n, i => i)
  {
  }

  lemma {:induction false} IsAscending(u: seq<nat>, marks: seq<bool>)
    requires Undecided(u, marks)
    ensures Ascending(u)
  {
  }

  lemma {:induction false} LastIsAccepted(p: seq<real>, marks: seq<bool>, u: seq<nat>, z: real)
    requires |p| == |marks| && Undecided(u, marks) && |u| == 1 && Marks(marks) == 0 && z > 0.0
    ensures u[0] < |p| && Surplus(p, MarkAll(marks, u[0..]), p[u[0]]) < z
  {
    assert u[0..] == [u[0]];
    NoneMarked(p, marks);
    SingleAccepted(p, marks, u[0]);
  }

  lemma {:induction false} NoneMarked(p: seq<real>, marks: seq<bool>)
    requires |p| == |marks| && Marks(marks) == 0
    ensures Marked(p, marks) == 0.0
  {
    if p == [] {
    } else {
      NoneMarked(p[..|p| - 1], marks[..|p| - 1]);
    }
  }

  /** projectionDuchi: for any random choices the loop ends, at least one index is accepted, and
      every component is reduced by the accepted indices' threshold and cut off at b. */
  method ProjectionDuchi(p: array<real>, z: real, b: real, rng: nat -> nat) returns (ghost threshold: real)
    requires p.Length >= 1 && z > 0.0
    modifies p
    ensures Threshold(old(p[..]), AcceptedIndices(old(p[..]), z, rng), z, threshold)
    ensures p[..] == Projected(old(p[..]), threshold, b)
  {
    var s, rho := Accept(p, z, rng);
    var theta := (s - z) / rho;
    threshold := theta;
    ghost var was := p[..];
    ThresholdIs(was, AcceptedIndices(was, z, rng), z, s, rho, theta);
    for i := 0 to p.Length
      invariant forall j :: 0 <= j < i ==> p[j] == Max(was[j] - theta, b)
      invariant forall j :: i <= j < p.Length ==> p[j] == was[j]
    {
      p[i] := Max(p[i] - theta, b);
    }
  }

  lemma {:induction false} ThresholdIs(p: seq<real>, marks: seq<bool>, z: real, s: real, rho: real, theta: real)
    requires |p| == |marks| && s == Marked(p, marks) && rho == Marks(marks) as real && rho >= 1.0
    requires theta == (s - z) / rho
    ensures Threshold(p, marks, z, theta)
  {
    assert rho * theta == s - z;
    RealTimes(Marks(marks), theta, rho);
  }

  // ---- when the result lies on the simplex -----------------------------------------------------

  /** In general it does not: from (3, 0) every random choice accepts both indices, and the
      result (2, 0) adds up to 2 instead of 1. */
  lemma {:induction false} MissesTheSimplex(rng: nat -> nat, theta: real)
    requires Threshold([3.0, 0.0], AcceptedIndices([3.0, 0.0], 1.0, rng), 1.0, theta)
    ensures Projected([3.0, 0.0], theta, 0.0) == [2.0, 0.0]
  {
    var p := [3.0, 0.0];
    BothAccepted(p, rng);
    assert Marked(p, [true, true]) == 3.0 by { MarkedPair(p); }
    assert Marks([true, true]) == 2 by { MarkedPair(p); }
  }

  lemma {:induction false} MarkedPair(p: seq<real>)
    requires |p| == 2
    ensures Marked(p, [true, true]) == p[0] + p[1] && Marks([true, true]) == 2
  {
    assert [true, true][..1] == [true] && [true][..0] == [];
    assert p[..1] == [p[0]] && [p[0]][..0] == [];
    assert Marked([p[0]], [true]) == p[0] && Marks([true]) == 1;
  }

  lemma {:induction false} BothAccepted(p: seq<real>, rng: nat -> nat)
    requires p == [3.0, 0.0]
    ensures AcceptedIndices(p, 1.0, rng) == [true, true]
  {
    var u, marks := AllIndices(2), NoMarks(2);
    var k := rng(0) % 2;
    assert u[..0] + u[0..] == u;
    if k == 0 {
      PairSurplus(p, [true, true], 3.0);
      assert u[0..] == [0, 1];
      MarkPair(marks);
      assert Accepted(p, 1.0, rng, 0, u, marks) == Accepted(p, 1.0, rng, 1, [], [true, true]);
    } else {
      PairSurplus(p, [false, true], 0.0);
      PairSurplus(p, [true, true], 3.0);
      MarkPair(marks);
      assert u[1..] == [1] && u[..1] == [0] && [0][0..] == [0] && [0][..0] == [];
      assert Accepted(p, 1.0, rng, 0, u, marks) == Accepted(p, 1.0, rng, 1, [0], [false, true]);
      assert rng(1) % 1 == 0;
      assert Accepted(p, 1.0, rng, 1, [0], [false, true]) == Accepted(p, 1.0, rng, 2, [], [true, true]);
    }
  }

  lemma {:induction false} PairSurplus(p: seq<real>, marks: seq<bool>, x: real)
    requires |p| == |marks| == 2
    ensures Surplus(p, marks, x) == (if marks[0] then p[0] - x else 0.0) + if marks[1] then p[1] - x else 0.0
  {
    assert p[..1] == [p[0]] && marks[..1] == [marks[0]];
    assert [p[0]][..0] == [] && [marks[0]][..0] == [];
    assert Surplus([p[0]], [marks[0]], x) == if marks[0] then p[0] - x else 0.0;
  }

  lemma {:induction false} MarkPair(marks: seq<bool>)
    requires marks == [false, false]
    ensures MarkAll(marks, [0, 1]) == [true, true] && MarkAll(marks, [1]) == [false, true]
    ensures MarkAll([false, true], [0]) == [true, true]
  {
    assert [0, 1][1..] == [1] && [1][1..] == [] && [0][1..] == [];
  }

  /** Marks of all indices from `m` on. */
  function Tail(n: nat, m: nat): (r: seq<bool>)
    ensures |r| == n
  {
    seq(n, i => i >= m)
  }

  ghost predicate Sorted(p: seq<real>) {
    forall i, j :: 0 <= i <= j < |p| ==> p[i] <= p[j]
  }

  /** More marks on components not below `x`, and a smaller `x`: no less surplus. */
  lemma {:induction false} SurplusMonotone(p: seq<real>, marks: seq<bool>, marks': seq<bool>, x: real, x': real)
    requires |p| == |marks| == |marks'| && x' <= x
    requires forall i :: 0 <= i < |p| && marks[i] ==> marks'[i]
    requires forall i :: 0 <= i < |p| && marks'[i] ==> p[i] >= x'
    ensures Surplus(p, marks, x) <= Surplus(p, marks', x')
  {
    if p == [] {
    } else {
      SurplusMonotone(p[..|p| - 1], marks[..|p| - 1], marks'[..|p| - 1], x, x');
    }
  }

  /** The loop on ascending components: everything from `m` on is accepted, everything from
      `r` to `m` still undecided, and `r - 1` is the largest dropped index. */
  ghost predicate Split(p: seq<real>, z: real, u: seq<nat>, r: nat, m: nat) {
    && r <= m <= |p| && Ascending(u)
    && (forall j :: 0 <= j < |u| ==> u[j] < m)
    && (forall i: nat :: r <= i < m ==> i in u)
    && (m < |p| ==> Surplus(p, Tail(|p|, m), p[m]) < z)
    && (r > 0 ==> Surplus(p, Tail(|p|, r), p[r - 1]) >= z)
  }

  /** What is marked with the chosen element: it, what lies behind it, and what was marked. */
  lemma {:induction false} MarkedWith(n: nat, u: seq<nat>, k: nat, m: nat, i: nat)
    requires Ascending(u) && k < |u| && m <= n && (forall j :: 0 <= j < |u| ==> u[j] < m) && i < n
    ensures MarkAll(Tail(n, m), u[k..])[i] == (i >= m || (i in u && i >= u[k]))
  {
    MarkAllAt(Tail(n, m), u[k..], i);
    if i in u[k..] {
      var j :| 0 <= j < |u[k..]| && u[k..][j] == i;
      assert u[k + j] == i;
    }
    if i in u && i >= u[k] {
      var j :| 0 <= j < |u| && u[j] == i;
      assert u[k..][j - k] == i;
    }
  }

  lemma {:induction false} AddNothing(p: seq<real>, x: nat)
    requires x < |p|
    ensures Surplus(p, Tail(|p|, x), p[x]) == Surplus(p, Tail(|p|, x + 1), p[x])
  {
    SameSurplus(p, Tail(|p|, x), Tail(|p|, x + 1), p[x]);
  }

  lemma {:induction false} SameSurplus(p: seq<real>, marks: seq<bool>, marks': seq<bool>, x: real)
    requires |p| == |marks| == |marks'|
    requires forall i :: 0 <= i < |p| && marks[i] != marks'[i] ==> p[i] == x
    ensures Surplus(p, marks, x) == Surplus(p, marks', x)
  {
    if p == [] {
    } else {
      SameSurplus(p[..|p| - 1], marks[..|p| - 1], marks'[..|p| - 1], x);
    }
  }

  /** Once an index has been dropped, smaller ones are dropped too. */
  lemma {:induction false} DropsBelow(p: seq<real>, z: real, u: seq<nat>, r: nat, m: nat, k: nat)
    requires Sorted(p) && Split(p, z, u, r, m) && k < |u| && u[k] < r
    ensures Surplus(p, MarkAll(Tail(|p|, m), u[k..]), p[u[k]]) >= z
  {
    var n, marks' := |p|, MarkAll(Tail(|p|, m), u[k..]);
    forall i: nat | i < n
      ensures Tail(n, r)[i] ==> marks'[i]
      ensures marks'[i] ==> p[i] >= p[u[k]]
    {
      MarkedWith(n, u, k, m, i);
    }
    SurplusMonotone(p, Tail(n, r), marks', p[r - 1], p[u[k]]);
  }

  lemma {:induction false} SplitStep(p: seq<real>, z: real, u: seq<nat>, r: nat, m: nat, k: nat)
    requires Sorted(p) && Split(p, z, u, r, m) && k < |u| && r <= u[k]
    ensures MarkAll(Tail(|p|, m), u[k..]) == Tail(|p|, u[k])
    ensures var x := u[k];
      if Surplus(p, Tail(|p|, x), p[x]) < z then Split(p, z, u[..k], r, x)
      else Split(p, z, u[..k] + u[k + 1..], x + 1, m)
  {
    var x := u[k];
    forall i: nat | i < |p| ensures MarkAll(Tail(|p|, m), u[k..])[i] == (i >= x) {
      MarkedWith(|p|, u, k, m, i);
    }
    AddNothing(p, x);
    forall i: nat | r <= i < x ensures i in u[..k] {
      assert i in u;
      var j :| 0 <= j < |u| && u[j] == i;
      assert u[..k][j] == i;
    }
    var rest := u[..k] + u[k + 1..];
    forall i: nat | x + 1 <= i < m ensures i in rest {
      assert i in u;
      var j :| 0 <= j < |u| && u[j] == i;
      assert u[k + 1..][j - k - 1] == i;
    }
  }

  lemma {:induction false} DropKeepsSplit(p: seq<real>, z: real, u: seq<nat>, r: nat, m: nat, k: nat)
    requires Split(p, z, u, r, m) && k < |u| && u[k] < r
    ensures Split(p, z, u[..k] + u[k + 1..], r, m)
  {
    var rest := u[..k] + u[k + 1..];
    forall i: nat | r <= i < m ensures i in rest {
      assert i in u;
      var j :| 0 <= j < |u| && u[j] == i;
      assert u[k + 1..][j - k - 1] == i;
    }
  }

  /** On ascending components the loop accepts the components above the threshold. */
  lemma {:induction false} AcceptsATail(
    p: seq<real>, z: real, rng: nat -> nat, t: nat, u: seq<nat>, r: nat, m: nat) returns (final: nat)
    requires Sorted(p) && Split(p, z, u, r, m)
    ensures final <= |p| && Accepted(p, z, rng, t, u, Tail(|p|, m)) == Tail(|p|, final)
    ensures final < |p| ==> Surplus(p, Tail(|p|, final), p[final]) < z
    ensures final > 0 ==> Surplus(p, Tail(|p|, final), p[final - 1]) >= z
    decreases |u|
  {
    hide Surplus, MarkAll;
    if u == [] {
      assert r < m ==> r in u;
      final := m;
    } else {
      var k := rng(t) % |u|;
      var x := u[k];
      if x < r {
        DropsBelow(p, z, u, r, m, k);
        DropKeepsSplit(p, z, u, r, m, k);
        final := AcceptsATail(p, z, rng, t + 1, u[..k] + u[k + 1..], r, m);
      } else {
        SplitStep(p, z, u, r, m, k);
        if Surplus(p, Tail(|p|, x), p[x]) < z {
          final := AcceptsATail(p, z, rng, t + 1, u[..k], r, x);
        } else {
          final := AcceptsATail(p, z, rng, t + 1, u[..k] + u[k + 1..], x + 1, m);
        }
      }
    }
  }

  lemma {:induction false} CompareTimes(n: int, x: real, y: real)
    requires n >= 1
    ensures Times(n, x) <= Times(n, y) <==> x <= y
  {
  }

  /** On components in ascending order the result lies on the simplex, for every random choice. */
  lemma {:induction false} HitsTheSimplexWhenAscending(p: seq<real>, z: real, rng: nat -> nat, theta: real)
    requires Sorted(p) && z > 0.0 && Threshold(p, AcceptedIndices(p, z, rng), z, theta)
    ensures Sum(Projected(p, theta, 0.0)) == z
  {
    hide Surplus, Accepted, Marked, Marks, Times;
    var n, marks := |p|, AcceptedIndices(p, z, rng);
    assert NoMarks(n) == Tail(n, n);
    forall i: nat | i < n ensures i in AllIndices(n) { assert AllIndices(n)[i] == i; }
    var m := AcceptsATail(p, z, rng, 0, AllIndices(n), 0, n);
    if m < n {
      SurplusIs(p, marks, p[m]);
      CompareTimes(Marks(marks), p[m], theta);
    }
    if m > 0 {
      SurplusIs(p, marks, p[m - 1]);
      CompareTimes(Marks(marks), p[m - 1], theta);
    }
    assert Separates(p, marks, theta);
    ProjectedSum(p, marks, z, theta);
  }
}
