/** Exactly which vectors the randomised simplex step puts on the simplex for every random choice,
    and that the point it then reaches is the nearest one. */
module SimplexExact {
  import opened RealSums
  import opened Simplex

  // ---- the level at which to cut -----------------------------------------------------------

  /** Reduced by `t` and cut off at zero the components add up to `z`. */
  ghost predicate Level(p: seq<real>, z: real, t: real) {
    Sum(Projected(p, t, 0.0)) == z
  }

  lemma {:induction false} ProjectedSnoc(p: seq<real>, t: real)
    requires p != []
    ensures Sum(Projected(p, t, 0.0)) == Sum(Projected(p[..|p| - 1], t, 0.0)) + Max(p[|p| - 1] - t, 0.0)
  {
    assert Projected(p, t, 0.0)[..|p| - 1] == Projected(p[..|p| - 1], t, 0.0);
  }

  /** A higher cut leaves less, unless nothing is left anyway. */
  lemma {:induction false} HigherCut(p: seq<real>, t: real, t': real)
    requires t < t'
    ensures Sum(Projected(p, t, 0.0)) >= Sum(Projected(p, t', 0.0)) >= 0.0
    ensures Sum(Projected(p, t', 0.0)) > 0.0 ==> Sum(Projected(p, t, 0.0)) > Sum(Projected(p, t', 0.0))
  {
    hide Projected;
    if p == [] {
      NothingProjected(t);
      NothingProjected(t');
    } else {
      HigherCut(p[..|p| - 1], t, t');
      ProjectedSnoc(p, t);
      ProjectedSnoc(p, t');
    }
  }

  lemma {:induction false} NothingProjected(t: real)
    ensures Sum(Projected([], t, 0.0)) == 0.0
  {
  }

  lemma {:induction false} LevelIsUnique(p: seq<real>, z: real, t: real, t': real)
    requires z > 0.0 && Level(p, z, t) && Level(p, z, t')
    ensures t == t'
  {
    if t < t' { HigherCut(p, t, t'); }
    if t' < t { HigherCut(p, t', t); }
  }

  function InsertSorted(s: seq<real>, x: real): seq<real> {
    if s == [] || s[|s| - 1] <= x then s + [x] else InsertSorted(s[..|s| - 1], x) + [s[|s| - 1]]
  }

  function SortAscending(p: seq<real>): seq<real> {
    if p == [] then [] else InsertSorted(SortAscending(p[..|p| - 1]), p[|p| - 1])
  }

  lemma {:induction false} InsertBounded(s: seq<real>, x: real, b: real)
    requires x <= b && forall i :: 0 <= i < |s| ==> s[i] <= b
    ensures |InsertSorted(s, x)| == |s| + 1
    ensures forall i :: 0 <= i < |s| + 1 ==> InsertSorted(s, x)[i] <= b
  {
    if s == [] || s[|s| - 1] <= x {
    } else {
      InsertBounded(s[..|s| - 1], x, b);
    }
  }

  lemma {:induction false} InsertKeepsSorted(s: seq<real>, x: real)
    requires Sorted(s)
    ensures Sorted(InsertSorted(s, x)) && |InsertSorted(s, x)| == |s| + 1
  {
    if s == [] || s[|s| - 1] <= x {
    } else {
      InsertKeepsSorted(s[..|s| - 1], x);
      InsertBounded(s[..|s| - 1], x, s[|s| - 1]);
    }
  }

  lemma {:induction false} InsertAddsUp(s: seq<real>, x: real, t: real)
    ensures Sum(Projected(InsertSorted(s, x), t, 0.0)) == Sum(Projected(s, t, 0.0)) + Max(x - t, 0.0)
  {
    hide Projected;
    var r := InsertSorted(s, x);
    ProjectedSnoc(r, t);
    if s == [] || s[|s| - 1] <= x {
      assert r[..|r| - 1] == s;
    } else {
      assert r[..|r| - 1] == InsertSorted(s[..|s| - 1], x);
      InsertAddsUp(s[..|s| - 1], x, t);
      ProjectedSnoc(s, t);
    }
  }

  lemma {:induction false} SortKeepsSums(p: seq<real>, t: real)
    ensures Sorted(SortAscending(p)) && |SortAscending(p)| == |p|
    ensures Sum(Projected(SortAscending(p), t, 0.0)) == Sum(Projected(p, t, 0.0))
  {
    hide Projected;
    if p == [] {
    } else {
      var front := SortAscending(p[..|p| - 1]);
      SortKeepsSums(p[..|p| - 1], t);
      InsertKeepsSorted(front, p[|p| - 1]);
      InsertAddsUp(front, p[|p| - 1], t);
      ProjectedSnoc(p, t);
    }
  }

  /** The first component above the level. */
  ghost predicate FirstAbove(p: seq<real>, t: real, m: nat) {
    m < |p| && p[m] > t && forall i :: 0 <= i < m ==> p[i] <= t
  }

  /** Every vector has a level, and a first component above it. */
  lemma {:induction false} LevelExists(p: seq<real>, z: real) returns (t: real, m: nat)
    requires p != [] && z > 0.0
    ensures Level(p, z, t) && FirstAbove(p, t, m)
  {
    hide Projected, AcceptedIndices;
    SortKeepsSums(p, 0.0);
    var s, rng := SortAscending(p), (n: nat) => 0 as nat;
    var marks := AcceptedIndices(s, z, rng);
    SomethingAccepted(s, z, rng);
    t := (Marked(s, marks) - z) / Marks(marks) as real;
    ThresholdIs(s, marks, z, Marked(s, marks), Marks(marks) as real, t);
    HitsTheSimplexWhenAscending(s, z, rng, t);
    SortKeepsSums(p, t);
    m := FindAbove(p, t);
  }

  lemma {:induction false} FindAbove(p: seq<real>, t: real) returns (m: nat)
    requires Sum(Projected(p, t, 0.0)) > 0.0
    ensures FirstAbove(p, t, m)
  {
    hide Projected;
    NothingProjected(t);
    ProjectedSnoc(p, t);
    var front := p[..|p| - 1];
    if Sum(Projected(front, t, 0.0)) > 0.0 {
      m := FindAbove(front, t);
    } else {
      m := |front|;
      NoneAbove(front, t);
    }
  }

  lemma {:induction false} NoneAbove(p: seq<real>, t: real)
    requires Sum(Projected(p, t, 0.0)) <= 0.0
    ensures Sum(Projected(p, t, 0.0)) == 0.0 && forall i :: 0 <= i < |p| ==> p[i] <= t
  {
    hide Projected;
    if p == [] {
      NothingProjected(t);
    } else {
      ProjectedSnoc(p, t);
      NonNegativeSum(p[..|p| - 1], t);
      NoneAbove(p[..|p| - 1], t);
    }
  }

  lemma {:induction false} NonNegativeSum(p: seq<real>, t: real)
    ensures Sum(Projected(p, t, 0.0)) >= 0.0
  {
    HigherCut(p, t - 1.0, t);
  }

  /** On ascending components the loop accepts something. */
  lemma {:induction false} SomethingAccepted(p: seq<real>, z: real, rng: nat -> nat)
    requires Sorted(p) && p != [] && z > 0.0
    ensures Marks(AcceptedIndices(p, z, rng)) >= 1
  {
    hide Surplus, Accepted;
    var n := |p|;
    assert NoMarks(n) == Tail(n, n);
    forall i: nat | i < n ensures i in AllIndices(n) { assert AllIndices(n)[i] == i; }
    var m := AcceptsATail(p, z, rng, 0, AllIndices(n), 0, n);
    if m == n { NoSurplus(p, NoMarks(n), p[n - 1]); }
    MarkedOnce(AcceptedIndices(p, z, rng), m);
  }

  lemma {:induction false} NoSurplus(p: seq<real>, marks: seq<bool>, x: real)
    requires |p| == |marks| && forall i :: 0 <= i < |p| ==> !marks[i]
    ensures Surplus(p, marks, x) == 0.0
  {
    if p == [] {
    } else {
      NoSurplus(p[..|p| - 1], marks[..|p| - 1], x);
    }
  }

  lemma {:induction false} MarkedOnce(marks: seq<bool>, i: nat)
    requires i < |marks| && marks[i]
    ensures Marks(marks) >= 1
  {
    if i == |marks| - 1 {
    } else {
      MarkedOnce(marks[..|marks| - 1], i);
    }
  }

  // ---- comparing surpluses -----------------------------------------------------------------

  /** What one component contributes to a surplus. */
  function Share(p: seq<real>, marks: seq<bool>, x: real, j: nat): real
    requires j < |p| == |marks|
  {
    if marks[j] then p[j] - x else 0.0
  }

  lemma {:induction false} SurplusCompares(p: seq<real>, a: seq<bool>, x: real, b: seq<bool>, y: real)
    requires |p| == |a| == |b|
    requires forall j: nat :: j < |p| ==> Share(p, a, x, j) <= Share(p, b, y, j)
    ensures Surplus(p, a, x) <= Surplus(p, b, y)
  {
    if p == [] {
    } else {
      var n := |p| - 1;
      forall j: nat | j < n ensures Share(p[..n], a[..n], x, j) <= Share(p[..n], b[..n], y, j) {
        assert Share(p, a, x, j) <= Share(p, b, y, j);
      }
      SurplusCompares(p[..n], a[..n], x, b[..n], y);
      assert Share(p, a, x, n) <= Share(p, b, y, n);
    }
  }

  lemma {:induction false} SurplusLess(p: seq<real>, a: seq<bool>, x: real, b: seq<bool>, y: real, k: nat)
    requires |p| == |a| == |b| && k < |p|
    requires forall j: nat :: j < |p| ==> Share(p, a, x, j) <= Share(p, b, y, j)
    requires Share(p, a, x, k) < Share(p, b, y, k)
    ensures Surplus(p, a, x) < Surplus(p, b, y)
  {
    var n := |p| - 1;
    forall j: nat | j < n ensures Share(p[..n], a[..n], x, j) <= Share(p[..n], b[..n], y, j) {
      assert Share(p, a, x, j) <= Share(p, b, y, j);
    }
    assert Share(p, a, x, n) <= Share(p, b, y, n);
    if k < n {
      SurplusLess(p[..n], a[..n], x, b[..n], y, k);
    } else {
      SurplusCompares(p[..n], a[..n], x, b[..n], y);
    }
  }

  /** Marks that separate the components at the level leave exactly `z` above it. */
  lemma {:induction false} LevelIsSurplus(p: seq<real>, z: real, t: real, marks: seq<bool>)
    requires |p| == |marks| && Level(p, z, t) && Separates(p, marks, t)
    ensures Surplus(p, marks, t) == z
  {
    CutOff(p, marks, t);
    SurplusIs(p, marks, t);
  }

  // ---- the condition on the input ------------------------------------------------------------

  /** Everything from `m` on, and what lies between `i` and `m` but below component i. */
  function Keep(p: seq<real>, i: nat, m: nat): (r: seq<bool>)
    requires i < |p|
    ensures |r| == |p|
  {
    seq(|p|, j requires 0 <= j < |p| => j >= m || (i < j && p[j] < p[i]))
  }

  /** The least surplus over component i that the loop can find there: the sum of p[j] - p[i] over
      all j >= m and over those j between i and m for which it is negative. */
  function Margin(p: seq<real>, i: nat, m: nat): real
    requires i < |p|
  {
    Surplus(p, Keep(p, i, m), p[i])
  }

  /** No component behind the first one above the level falls below it, and over every component
      in front of it the margin is at least `z`. */
  ghost predicate Favourable(p: seq<real>, z: real, t: real, m: nat)
    requires m < |p|
  {
    && (forall j :: m <= j < |p| ==> p[j] >= t)
    && (forall i: nat :: i < m ==> Margin(p, i, m) >= z)
  }

  // ---- it suffices -------------------------------------------------------------------------

  /** Nothing in front of `m` is marked, all from `m` on is marked or undecided, and all of it is
      marked if `m` is. */
  ghost predicate OnTrack(p: seq<real>, u: seq<nat>, marks: seq<bool>, m: nat) {
    && m < |p| == |marks| && Undecided(u, marks)
    && (forall i :: 0 <= i < m ==> !marks[i])
    && (forall j: nat :: m <= j < |p| ==> marks[j] || j in u)
    && (marks[m] ==> forall j :: m <= j < |p| ==> marks[j])
  }

  /** What is marked together with the chosen element. */
  lemma {:induction false} MarkedBehind(u: seq<nat>, marks: seq<bool>, k: nat, j: nat)
    requires Undecided(u, marks) && k < |u| && j < |marks|
    ensures MarkAll(marks, u[k..])[j] <==> marks[j] || (j in u && j >= u[k])
  {
    MarkAllAt(marks, u[k..], j);
    if j in u[k..] {
      var l :| 0 <= l < |u[k..]| && u[k..][l] == j;
      assert u[k + l] == j;
    }
    if j in u && j >= u[k] {
      var l :| 0 <= l < |u| && u[l] == j;
      assert u[k..][l - k] == j;
    }
  }

  /** An element in front of `m` is dropped. */
  lemma {:induction false} DroppedInFront(p: seq<real>, u: seq<nat>, marks: seq<bool>, m: nat, k: nat)
    requires OnTrack(p, u, marks, m) && k < |u| && u[k] < m
    ensures Surplus(p, MarkAll(marks, u[k..]), p[u[k]]) >= Margin(p, u[k], m)
  {
    var x, marks' := u[k], MarkAll(marks, u[k..]);
    forall j: nat | j < |p| ensures Share(p, Keep(p, x, m), p[x], j) <= Share(p, marks', p[x], j) {
      MarkedBehind(u, marks, k, j);
    }
    SurplusCompares(p, Keep(p, x, m), p[x], marks', p[x]);
  }

  /** An element from `m` on is accepted. */
  lemma {:induction false} AcceptedBehind(p: seq<real>, z: real, t: real, u: seq<nat>, marks: seq<bool>, m: nat, k: nat)
    requires OnTrack(p, u, marks, m) && k < |u| && u[k] >= m
    requires Level(p, z, t) && FirstAbove(p, t, m) && forall j :: m <= j < |p| ==> p[j] >= t
    ensures Surplus(p, MarkAll(marks, u[k..]), p[u[k]]) < z
  {
    var x, marks', tail := u[k], MarkAll(marks, u[k..]), Tail(|p|, m);
    forall j: nat | j < |p| ensures Share(p, marks', p[x], j) <= Share(p, tail, t, j) {
      MarkedBehind(u, marks, k, j);
    }
    LevelIsSurplus(p, z, t, tail);
    if p[x] > t {
      SurplusLess(p, marks', p[x], tail, t, x);
    } else {
      MarkedBehind(u, marks, k, m);
      SurplusLess(p, marks', p[x], tail, t, m);
    }
  }

  lemma {:induction false} DropStaysOnTrack(p: seq<real>, u: seq<nat>, marks: seq<bool>, m: nat, k: nat)
    requires OnTrack(p, u, marks, m) && k < |u| && u[k] < m
    ensures OnTrack(p, u[..k] + u[k + 1..], marks, m)
  {
    StillUndecided(u, marks, k);
    var rest := u[..k] + u[k + 1..];
    forall j: nat | m <= j < |p| && j in u ensures j in rest {
      StillIn(u, k, j);
    }
  }

  lemma {:induction false} StillIn(u: seq<nat>, k: nat, j: nat)
    requires k < |u| && j in u && j != u[k]
    ensures j in u[..k] + u[k + 1..]
  {
    var l :| 0 <= l < |u| && u[l] == j;
    var rest := u[..k] + u[k + 1..];
    assert rest[if l < k then l else l - 1] == j;
  }

  lemma {:induction false} AcceptStaysOnTrack(p: seq<real>, u: seq<nat>, marks: seq<bool>, m: nat, k: nat)
    requires OnTrack(p, u, marks, m) && k < |u| && u[k] >= m
    ensures OnTrack(p, u[..k], MarkAll(marks, u[k..]), m)
  {
    StillUndecided(u, marks, k);
    var marks' := MarkAll(marks, u[k..]);
    forall j: nat | j < |p|
      ensures marks'[j] <==> marks[j] || (j in u && j >= u[k])
      ensures j in u && j < u[k] ==> j in u[..k]
    {
      MarkedBehind(u, marks, k, j);
      if j in u && j < u[k] {
        var l :| 0 <= l < |u| && u[l] == j;
        assert u[..k][l] == j;
      }
    }
  }

  /** For every random choice exactly the indices from `m` on are accepted. */
  lemma {:induction false} AcceptsFrom(
    p: seq<real>, z: real, t: real, m: nat, rng: nat -> nat, n: nat, u: seq<nat>, marks: seq<bool>)
    requires Level(p, z, t) && FirstAbove(p, t, m) && Favourable(p, z, t, m) && OnTrack(p, u, marks, m)
    ensures Accepted(p, z, rng, n, u, marks) == Tail(|p|, m)
    decreases |u|
  {
    hide Surplus, MarkAll, Margin, OnTrack, Level;
    TrackIsTyped(p, u, marks, m);
    if u == [] {
      TrackEnds(p, marks, m);
    } else {
      var k := rng(n) % |u|;
      var x := u[k];
      if x < m {
        DroppedInFront(p, u, marks, m, k);
        assert Margin(p, x, m) >= z;
        DropStaysOnTrack(p, u, marks, m, k);
        AcceptsFrom(p, z, t, m, rng, n + 1, u[..k] + u[k + 1..], marks);
      } else {
        AcceptedBehind(p, z, t, u, marks, m, k);
        AcceptStaysOnTrack(p, u, marks, m, k);
        AcceptsFrom(p, z, t, m, rng, n + 1, u[..k], MarkAll(marks, u[k..]));
      }
    }
  }

  lemma {:induction false} TrackIsTyped(p: seq<real>, u: seq<nat>, marks: seq<bool>, m: nat)
    requires OnTrack(p, u, marks, m)
    ensures |p| == |marks| && forall j :: 0 <= j < |u| ==> u[j] < |p|
  {
  }

  lemma {:induction false} TrackEnds(p: seq<real>, marks: seq<bool>, m: nat)
    requires OnTrack(p, [], marks, m)
    ensures marks == Tail(|p|, m)
  {
    forall j: nat | m <= j < |p| ensures marks[j] {
      var u: seq<nat> := [];
      assert marks[j] || j in u;
    }
  }

  // ---- it is necessary -----------------------------------------------------------------------

  /** What is marked stays marked. */
  lemma {:induction false} MarksStay(p: seq<real>, z: real, rng: nat -> nat, n: nat, u: seq<nat>,
      marks: seq<bool>, i: nat)
    requires |p| == |marks| && (forall j :: 0 <= j < |u| ==> u[j] < |p|) && i < |p| && marks[i]
    ensures Accepted(p, z, rng, n, u, marks)[i]
    decreases |u|
  {
    hide Surplus, MarkAll;
    if u == [] {
    } else {
      var k := rng(n) % |u|;
      MarkAllAt(marks, u[k..], i);
      MarksStay(p, z, rng, n + 1, u[..k], MarkAll(marks, u[k..]), i);
      MarksStay(p, z, rng, n + 1, u[..k] + u[k + 1..], marks, i);
    }
  }

  lemma {:induction false} SmallRemainder(k: nat, n: nat)
    requires k < n
    ensures k % n == k
  {
  }

  /** One turn of the loop that chooses position k. */
  lemma {:induction false} Choosing(p: seq<real>, z: real, rng: nat -> nat, n: nat, u: seq<nat>,
      marks: seq<bool>, k: nat)
    requires |p| == |marks| && (forall j :: 0 <= j < |u| ==> u[j] < |p|) && k < |u| && rng(n) == k
    ensures var marks' := MarkAll(marks, u[k..]);
      Accepted(p, z, rng, n, u, marks) ==
        if Surplus(p, marks', p[u[k]]) < z then Accepted(p, z, rng, n + 1, u[..k], marks')
        else Accepted(p, z, rng, n + 1, u[..k] + u[k + 1..], marks)
  {
    hide Accepted, Surplus, MarkAll;
    SmallRemainder(k, |u|);
    AcceptedStep(p, z, rng, n, u, marks);
  }

  /** The choices of `rng` with one more in front. */
  function Prepend(k: nat, rng: nat -> nat): nat -> nat {
    (n: nat) => if n == 0 then k else rng(n - 1)
  }

  lemma {:induction false} PrependAccepts(p: seq<real>, z: real, rng: nat -> nat, k: nat, n: nat, u: seq<nat>,
      marks: seq<bool>)
    requires |p| == |marks| && forall j :: 0 <= j < |u| ==> u[j] < |p|
    ensures Accepted(p, z, Prepend(k, rng), n + 1, u, marks) == Accepted(p, z, rng, n, u, marks)
    decreases |u|
  {
    hide Surplus, MarkAll, Accepted, Prepend;
    PrependLater(k, rng, n);
    if u == [] {
      AcceptedEnd(p, z, rng, n, marks);
      AcceptedEnd(p, z, Prepend(k, rng), n + 1, marks);
    } else {
      var l := rng(n) % |u|;
      AcceptedStep(p, z, rng, n, u, marks);
      AcceptedStep(p, z, Prepend(k, rng), n + 1, u, marks);
      PrependAccepts(p, z, rng, k, n + 1, u[..l], MarkAll(marks, u[l..]));
      PrependAccepts(p, z, rng, k, n + 1, u[..l] + u[l + 1..], marks);
    }
  }

  lemma {:induction false} PrependLater(k: nat, rng: nat -> nat, n: nat)
    ensures Prepend(k, rng)(n + 1) == rng(n)
  {
  }

  /** The result adds up to `z` for every random choice. */
  ghost predicate AlwaysProjects(p: seq<real>, z: real) {
    forall rng: nat -> nat, theta: real :: Threshold(p, AcceptedIndices(p, z, rng), z, theta) ==>
      Sum(Projected(p, theta, 0.0)) == z
  }

  /** A choice that accepts a component below the level misses the simplex. */
  lemma {:induction false} AcceptedBelowMisses(p: seq<real>, z: real, t: real, rng: nat -> nat, i: nat)
    requires z > 0.0 && Level(p, z, t) && i < |p| && p[i] < t && AcceptedIndices(p, z, rng)[i]
    ensures !AlwaysProjects(p, z)
  {
    hide AcceptedIndices, Projected;
    var marks := AcceptedIndices(p, z, rng);
    MarkedOnce(marks, i);
    var theta := (Marked(p, marks) - z) / Marks(marks) as real;
    ThresholdIs(p, marks, z, Marked(p, marks), Marks(marks) as real, theta);
    if Sum(Projected(p, theta, 0.0)) == z {
      LevelIsUnique(p, z, t, theta);
      ProjectedSum(p, marks, z, theta);
      assert false;
    }
  }

  /** The marks of all components above the level. */
  function Above(p: seq<real>, t: real): (r: seq<bool>)
    ensures |r| == |p|
  {
    seq(|p|, k requires 0 <= k < |p| => p[k] > t)
  }

  /** Chosen first, the index `m` is accepted with everything behind it. */
  lemma {:induction false} FirstChoice(p: seq<real>, z: real, t: real, m: nat)
    requires Level(p, z, t) && FirstAbove(p, t, m)
    ensures var marks := MarkAll(NoMarks(|p|), AllIndices(|p|)[m..]);
      Surplus(p, marks, p[m]) < z && forall k: nat :: m <= k < |p| ==> marks[k]
  {
    var n, u, none, above := |p|, AllIndices(|p|), NoMarks(|p|), Above(p, t);
    var marks := MarkAll(none, u[m..]);
    Untouched(n);
    LevelIsSurplus(p, z, t, above);
    forall k: nat | k < n
      ensures marks[k] == (k >= m)
      ensures Share(p, marks, p[m], k) <= Share(p, above, t, k)
    {
      assert u[k] == k;
      MarkedBehind(u, none, m, k);
    }
    SurplusLess(p, marks, p[m], above, t, m);
  }

  /** If a component from `m` on lies below the level, choosing `m` first accepts it. */
  lemma {:induction false} BelowBehindMisses(p: seq<real>, z: real, t: real, m: nat, j: nat)
    requires z > 0.0 && Level(p, z, t) && FirstAbove(p, t, m) && m <= j < |p| && p[j] < t
    ensures !AlwaysProjects(p, z)
  {
    hide Level, Surplus, MarkAll, AlwaysProjects, Accepted;
    var rng, u, none := (_: nat) => m, AllIndices(|p|), NoMarks(|p|);
    FirstChoice(p, z, t, m);
    Choosing(p, z, rng, 0, u, none, m);
    MarksStay(p, z, rng, 1, u[..m], MarkAll(none, u[m..]), j);
    StartOfLoop(p, z, rng);
    AcceptedBelowMisses(p, z, t, rng, j);
  }

  /** The components that a test of i with too small a margin accepts. */
  predicate Caught(p: seq<real>, i: nat, m: nat, h: nat)
    requires i < |p|
  {
    h == i || (i < h < |p| && h < m && p[h] < p[i])
  }

  /** Undecided are at least all from `m` on and what the test of i would catch. */
  ghost predicate Ready(p: seq<real>, u: seq<nat>, i: nat, m: nat) {
    && i < m < |p| && OnTrack(p, u, NoMarks(|p|), m)
    && forall h: nat :: Caught(p, i, m, h) ==> h in u
  }

  /** With the components in between that would help dropped, the test of i sees its margin. */
  lemma {:induction false} TestSeesMargin(p: seq<real>, u: seq<nat>, i: nat, m: nat, k: nat)
    requires Ready(p, u, i, m) && k < |u| && u[k] == i
    requires forall l :: 0 <= l < |u| && i < u[l] < m ==> p[u[l]] < p[i]
    ensures Surplus(p, MarkAll(NoMarks(|p|), u[k..]), p[i]) <= Margin(p, i, m)
    ensures forall h: nat :: Caught(p, i, m, h) ==> MarkAll(NoMarks(|p|), u[k..])[h]
  {
    var none := NoMarks(|p|);
    var marks := MarkAll(none, u[k..]);
    forall j: nat | j < |p| ensures Share(p, marks, p[i], j) <= Share(p, Keep(p, i, m), p[i], j) {
      MarkedBehind(u, none, k, j);
      if j in u {
        var l :| 0 <= l < |u| && u[l] == j;
      }
    }
    SurplusCompares(p, marks, p[i], Keep(p, i, m), p[i]);
    forall h: nat | Caught(p, i, m, h) ensures marks[h] { MarkedBehind(u, none, k, h); }
  }

  lemma {:induction false} ReadyWithout(p: seq<real>, u: seq<nat>, i: nat, m: nat, k: nat)
    requires Ready(p, u, i, m) && k < |u| && i < u[k] < m && p[u[k]] >= p[i]
    ensures Ready(p, u[..k] + u[k + 1..], i, m)
  {
    DropStaysOnTrack(p, u, NoMarks(|p|), m, k);
    var rest := u[..k] + u[k + 1..];
    forall h: nat | Caught(p, i, m, h) ensures h in rest { StillIn(u, k, h); }
  }

  /** Choosing what would help component i drops it. */
  lemma {:induction false} DropHelper(p: seq<real>, z: real, u: seq<nat>, i: nat, m: nat, k: nat, later: nat -> nat)
    requires Ready(p, u, i, m) && k < |u| && i < u[k] < m && Margin(p, u[k], m) >= z
    ensures forall j :: 0 <= j < |u| ==> u[j] < |p|
    ensures Accepted(p, z, Prepend(k, later), 0, u, NoMarks(|p|))
      == Accepted(p, z, later, 0, u[..k] + u[k + 1..], NoMarks(|p|))
  {
    hide Surplus, MarkAll, Margin, Accepted, Caught;
    TrackIsTyped(p, u, NoMarks(|p|), m);
    hide OnTrack;
    var none := NoMarks(|p|);
    DroppedInFront(p, u, none, m, k);
    Choosing(p, z, Prepend(k, later), 0, u, none, k);
    PrependAccepts(p, z, later, k, 0, u[..k] + u[k + 1..], none);
  }

  /** With nothing left that helps it, component i is accepted with what it catches. */
  lemma {:induction false} TestCatches(p: seq<real>, z: real, u: seq<nat>, i: nat, m: nat, k: nat)
    requires Ready(p, u, i, m) && k < |u| && u[k] == i && Margin(p, i, m) < z
    requires forall l :: 0 <= l < |u| && i < u[l] < m ==> p[u[l]] < p[i]
    ensures forall j :: 0 <= j < |u| ==> u[j] < |p|
    ensures forall h: nat :: Caught(p, i, m, h) ==> Accepted(p, z, (_: nat) => k, 0, u, NoMarks(|p|))[h]
  {
    hide Surplus, MarkAll, Margin, Accepted;
    var none, rng := NoMarks(|p|), (_: nat) => k;
    TestSeesMargin(p, u, i, m, k);
    Choosing(p, z, rng, 0, u, none, k);
    forall h: nat | Caught(p, i, m, h) ensures Accepted(p, z, rng, 0, u, none)[h] {
      MarksStay(p, z, rng, 1, u[..k], MarkAll(none, u[k..]), h);
    }
  }

  /** Choices that drop whatever helps component i and then test it. */
  lemma {:induction false} ChoicesCatch(p: seq<real>, z: real, u: seq<nat>, i: nat, m: nat) returns (rng: nat -> nat)
    requires Ready(p, u, i, m) && Margin(p, i, m) < z
    requires forall j: nat :: i < j < m ==> Margin(p, j, m) >= z
    ensures forall j :: 0 <= j < |u| ==> u[j] < |p|
    ensures forall h: nat :: Caught(p, i, m, h) ==> Accepted(p, z, rng, 0, u, NoMarks(|p|))[h]
    decreases |u|
  {
    hide Surplus, MarkAll, Margin, Accepted, OnTrack;
    if k :| 0 <= k < |u| && i < u[k] < m && p[u[k]] >= p[i] {
      ReadyWithout(p, u, i, m, k);
      var later := ChoicesCatch(p, z, u[..k] + u[k + 1..], i, m);
      DropHelper(p, z, u, i, m, k, later);
      rng := Prepend(k, later);
    } else {
      assert Caught(p, i, m, i);
      var k :| 0 <= k < |u| && u[k] == i;
      TestCatches(p, z, u, i, m, k);
      rng := (_: nat) => k;
    }
  }

  /** The last component in front of `m` whose margin is too small. */
  lemma {:induction false} LastTooSmall(p: seq<real>, z: real, m: nat, i: nat) returns (last: nat)
    requires i < m < |p| && Margin(p, i, m) < z
    ensures i <= last < m && Margin(p, last, m) < z
    ensures forall j: nat :: last < j < m ==> Margin(p, j, m) >= z
    decreases m - i
  {
    hide Margin;
    if j: nat :| i < j < m && Margin(p, j, m) < z {
      last := LastTooSmall(p, z, m, j);
    } else {
      last := i;
    }
  }

  lemma {:induction false} ReadyAtFirst(p: seq<real>, i: nat, m: nat)
    requires i < m < |p|
    ensures Ready(p, AllIndices(|p|), i, m)
  {
    Untouched(|p|);
    forall h: nat | h < |p| ensures h in AllIndices(|p|) { assert AllIndices(|p|)[h] == h; }
  }

  /** A margin below `z` lets some choice accept a component below the level. */
  lemma {:induction false} SmallMarginMisses(p: seq<real>, z: real, t: real, m: nat, i: nat)
    requires z > 0.0 && Level(p, z, t) && FirstAbove(p, t, m) && i < m && Margin(p, i, m) < z
    requires forall j :: m <= j < |p| ==> p[j] >= t
    ensures !AlwaysProjects(p, z)
  {
    hide Level, Accepted;
    var last := LastTooSmall(p, z, m, i);
    ReadyAtFirst(p, last, m);
    var rng := ChoicesCatch(p, z, AllIndices(|p|), last, m);
    var h := CaughtBelow(p, z, t, m, last);
    AcceptedBelowMisses(p, z, t, rng, h);
  }

  lemma {:induction false} CaughtBelow(p: seq<real>, z: real, t: real, m: nat, i: nat) returns (h: nat)
    requires Level(p, z, t) && FirstAbove(p, t, m) && i < m && Margin(p, i, m) < z
    requires forall j :: m <= j < |p| ==> p[j] >= t
    ensures h < |p| && Caught(p, i, m, h) && p[h] < t
  {
    if p[i] < t {
      h := i;
    } else if l: nat :| i < l < m && p[l] < p[i] {
      h := l;
    } else {
      assert Keep(p, i, m) == Tail(|p|, m);
      LevelIsSurplus(p, z, t, Tail(|p|, m));
      assert false;
    }
  }

  /** The step puts a vector on the simplex for every random choice if and only if, with `t` the
      level at which to cut and `m` the first component above it, no component behind `m` falls
      below the level and every component in front of `m` has a margin of at least `z`. */
  lemma {:induction false} ProjectsIff(p: seq<real>, z: real, t: real, m: nat)
    requires z > 0.0 && Level(p, z, t) && FirstAbove(p, t, m)
    ensures AlwaysProjects(p, z) <==> Favourable(p, z, t, m)
  {
    hide Margin, AcceptedIndices;
    if j: nat :| m <= j < |p| && p[j] < t {
      BelowBehindMisses(p, z, t, m, j);
    } else if i: nat :| i < m && Margin(p, i, m) < z {
      SmallMarginMisses(p, z, t, m, i);
    } else {
      forall rng: nat -> nat, theta: real | Threshold(p, AcceptedIndices(p, z, rng), z, theta)
        ensures Sum(Projected(p, theta, 0.0)) == z
      {
        FavourableProjects(p, z, t, m, rng, theta);
      }
    }
  }

  /** And then the threshold is the level, whatever the choices. */
  lemma {:induction false} FavourableProjects(p: seq<real>, z: real, t: real, m: nat, rng: nat -> nat, theta: real)
    requires z > 0.0 && Level(p, z, t) && FirstAbove(p, t, m) && Favourable(p, z, t, m)
    requires Threshold(p, AcceptedIndices(p, z, rng), z, theta)
    ensures theta == t
  {
    hide Accepted, Margin, Level;
    var n, marks := |p|, AcceptedIndices(p, z, rng);
    Untouched(n);
    forall j: nat | j < n ensures j in AllIndices(n) { assert AllIndices(n)[j] == j; }
    AcceptsFrom(p, z, t, m, rng, 0, AllIndices(n), NoMarks(n));
    LevelIsSurplus(p, z, t, marks);
    SurplusIs(p, marks, t);
    CompareTimes(Marks(marks), theta, t);
    CompareTimes(Marks(marks), t, theta);
  }

  // ---- the nearest point -----------------------------------------------------------------------

  function Squared(x: real): real { x * x }

  /** The squared distance of two vectors. */
  function Distance(p: seq<real>, q: seq<real>): real
    requires |p| == |q|
  {
    if p == [] then 0.0
    else Distance(p[..|p| - 1], q[..|p| - 1]) + Squared(p[|p| - 1] - q[|p| - 1])
  }

  ghost predicate OnSimplex(q: seq<real>, z: real) {
    (forall i :: 0 <= i < |q| ==> q[i] >= 0.0) && Sum(q) == z
  }

  lemma {:induction false} NearestAt(p: real, t: real, q: real)
    requires q >= 0.0
    ensures var r := Max(p - t, 0.0);
      Squared(q - p) >= Squared(r - p) + Squared(q - r) - 2.0 * Times(1, t) * (q - r)
  {
    var r := Max(p - t, 0.0);
    var d, s := q - r, r - p;
    assert Squared(q - p) == Squared(d) + 2.0 * (d * s) + Squared(s) by { assert q - p == d + s; }
    if p > t {
      assert s == -t;
    } else {
      assert d * (s + t) >= 0.0;
      assert d * s == d * (s + t) - d * t;
    }
  }

  function Shifted(t: real, x: real): real { 2.0 * t * x }

  lemma {:induction false} ShiftedAdds(t: real, x: real, y: real)
    ensures Shifted(t, x + y) == Shifted(t, x) + Shifted(t, y) && Shifted(t, 0.0) == 0.0
  {
  }

  lemma {:induction false} NearestUpTo(p: seq<real>, t: real, q: seq<real>)
    requires |p| == |q| && forall i :: 0 <= i < |q| ==> q[i] >= 0.0
    ensures var r := Projected(p, t, 0.0);
      Distance(q, p) >= Distance(r, p) + Distance(q, r) - Shifted(t, Sum(q) - Sum(r))
  {
    hide Squared, Shifted;
    if p == [] {
      ShiftedAdds(t, 0.0, 0.0);
    } else {
      var n, r := |p| - 1, Projected(p, t, 0.0);
      NearestUpTo(p[..n], t, q[..n]);
      assert r[..n] == Projected(p[..n], t, 0.0);
      NearestShifted(p[n], t, q[n]);
      ShiftedAdds(t, Sum(q[..n]) - Sum(r[..n]), q[n] - r[n]);
      assert Sum(q) - Sum(r) == (Sum(q[..n]) - Sum(r[..n])) + (q[n] - r[n]);
    }
  }

  lemma {:induction false} NearestShifted(p: real, t: real, q: real)
    requires q >= 0.0
    ensures var r := Max(p - t, 0.0);
      Squared(q - p) >= Squared(r - p) + Squared(q - r) - Shifted(t, q - r)
  {
    NearestAt(p, t, q);
  }

  /** Where the step does reach the simplex it reaches the nearest point: every other point of the
      simplex is farther away, by at least its distance from the result. */
  lemma {:induction false} NearestPoint(p: seq<real>, z: real, theta: real, q: seq<real>)
    requires Level(p, z, theta) && |q| == |p| && OnSimplex(q, z)
    ensures var r := Projected(p, theta, 0.0);
      OnSimplex(r, z) && Distance(q, p) >= Distance(r, p) + Distance(q, r)
  {
    hide Shifted, Distance;
    NearestUpTo(p, theta, q);
    ShiftedAdds(theta, 0.0, 0.0);
  }
}
