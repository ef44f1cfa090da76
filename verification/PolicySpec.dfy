/** The arithmetic of the policy-gradient learners: a gradient step, the simplex step,
    renormalisation, a floor under every probability, and the choice of an action. */
module PolicySpec {
  import opened RealSums
  import opened Simplex
  import opened SimplexExact

  // ---- vectors -----------------------------------------------------------------------------

  /** Vector::mult. */
  function Scaled(p: seq<real>, k: real): (r: seq<real>)
    ensures |r| == |p| && forall i :: 0 <= i < |p| ==> r[i] == Product(p[i], k)
  {
    seq(|p|, i requires 0 <= i < |p| => Product(p[i], k))
  }

  /** The point that lies at `x` of the way from lo to hi. */
  function Between(lo: real, hi: real, x: real): real { lo + (hi - lo) * x }

  /** Vector::scale: [0, 1] is mapped to [lo, hi]. */
  function Mapped(p: seq<real>, lo: real, hi: real): (r: seq<real>)
    ensures |r| == |p| && forall i :: 0 <= i < |p| ==> r[i] == Between(lo, hi, p[i])
  {
    seq(|p|, i requires 0 <= i < |p| => Between(lo, hi, p[i]))
  }

  lemma {:induction false} SumScaled(p: seq<real>, k: real)
    ensures Sum(Scaled(p, k)) == Product(Sum(p), k)
  {
    hide Product;
    if p == [] {
      ProductAdds(0.0, 0.0, k);
    } else {
      var n := |p| - 1;
      SumScaled(p[..n], k);
      assert Scaled(p, k)[..n] == Scaled(p[..n], k);
      ProductAdds(Sum(p[..n]), p[n], k);
    }
  }

  lemma {:induction false} SumMapped(p: seq<real>, lo: real, hi: real)
    ensures Sum(Mapped(p, lo, hi)) == Times(|p|, lo) + Product(hi - lo, Sum(p))
  {
    hide Product, Between, Times;
    if p == [] {
      BetweenAdds(lo, hi, 0, 0.0, 0.0);
    } else {
      var n := |p| - 1;
      SumMapped(p[..n], lo, hi);
      assert Mapped(p, lo, hi)[..n] == Mapped(p[..n], lo, hi);
      BetweenAdds(lo, hi, n, Sum(p[..n]), p[n]);
    }
  }

  lemma {:induction false} BetweenAdds(lo: real, hi: real, n: int, sum: real, x: real)
    ensures Times(n, lo) + Product(hi - lo, sum) + Between(lo, hi, x) == Times(n + 1, lo) + Product(hi - lo, sum + x)
    ensures Times(0, lo) == 0.0 && Product(hi - lo, 0.0) == 0.0
  {
  }

  // ---- from a gradient to a policy ---------------------------------------------------------

  const TOLERANCE: real := 0.000002

  /** `gsl_fcmp(sum, 1.0, 1e-6) == 0`: the exponent of the larger argument is 1 near 1, so the
      difference may be 2e-6. */
  predicate CloseToOne(sum: real) { -TOLERANCE <= sum - 1.0 <= TOLERANCE }

  function Normalised(p: seq<real>): seq<real> {
    if CloseToOne(Sum(p)) || Sum(p) == 0.0 then p else Scaled(p, 1.0 / Sum(p))
  }

  /** The largest probability that leaves epsilon for each of the others. */
  function MaxEpsilon(n: nat, epsilon: real): real { 1.0 - (n as real - 1.0) * epsilon }

  function Floored(p: seq<real>, epsilon: real): (r: seq<real>)
    ensures |r| == |p|
  {
    Mapped(p, epsilon, MaxEpsilon(|p|, epsilon))
  }

  /** Probabilities: non-negative, with sum 1 up to the tolerance of the comparison. */
  ghost predicate Distribution(p: seq<real>) {
    (forall i :: 0 <= i < |p| ==> p[i] >= 0.0) && CloseToOne(Sum(p))
  }

  ghost predicate AtLeast(p: seq<real>, epsilon: real) {
    forall i :: 0 <= i < |p| ==> p[i] >= epsilon
  }

  /** A vector of positive sum becomes a distribution; unless its sum was close to 1 already its
      sum is 1 then. */
  lemma {:induction false} NormalisedIsDistribution(p: seq<real>)
    requires AtLeast(p, 0.0) && Sum(p) >= 1.0
    ensures Distribution(Normalised(p)) && |Normalised(p)| == |p|
    ensures !CloseToOne(Sum(p)) ==> Sum(Normalised(p)) == 1.0
  {
    if !CloseToOne(Sum(p)) {
      var k := 1.0 / Sum(p);
      SumScaled(p, k);
      assert Product(Sum(p), k) == 1.0;
      forall i | 0 <= i < |p| ensures Scaled(p, k)[i] >= 0.0 { NonNegative(p[i], k); }
    }
  }

  /** The floor at one probability, in terms of the room that n times epsilon leaves. */
  lemma {:induction false} FlooredAt(n: nat, x: real, epsilon: real)
    ensures Between(epsilon, MaxEpsilon(n, epsilon), x) == epsilon + Product(1.0 - Times(n, epsilon), x)
    ensures MaxEpsilon(n, epsilon) - epsilon == 1.0 - Times(n, epsilon)
  {
    assert MaxEpsilon(n, epsilon) - epsilon == 1.0 - Times(n, epsilon);
  }

  /** Mixing in the uniform distribution keeps a distribution one, and leaves every action at
      least epsilon, if there is room for n times epsilon. */
  lemma {:induction false} FlooredIsDistribution(p: seq<real>, epsilon: real)
    requires Distribution(p) && epsilon >= 0.0 && Times(|p|, epsilon) <= 1.0
    ensures Distribution(Floored(p, epsilon)) && AtLeast(Floored(p, epsilon), epsilon)
    ensures Sum(p) == 1.0 ==> Sum(Floored(p, epsilon)) == 1.0
  {
    hide Product, Between, Times, MaxEpsilon, Sum;
    var n, r, room := |p|, Floored(p, epsilon), 1.0 - Times(|p|, epsilon);
    forall i | 0 <= i < n ensures r[i] >= epsilon {
      FlooredAt(n, p[i], epsilon);
      NonNegative(room, p[i]);
    }
    SumMapped(p, epsilon, MaxEpsilon(n, epsilon));
    FlooredAt(n, 0.0, epsilon);
    assert room <= 1.0 by { NonNegativeTimes(n, epsilon); }
    SmallFactor(room, Sum(p) - 1.0);
    assert Sum(r) - 1.0 == Product(room, Sum(p)) - room;
  }

  lemma {:induction false} NonNegativeTimes(n: nat, x: real)
    requires x >= 0.0
    ensures Times(n, x) >= 0.0
  {
  }

  lemma {:induction false} SmallFactor(k: real, x: real)
    requires 0.0 <= k <= 1.0 && -TOLERANCE <= x <= TOLERANCE
    ensures -TOLERANCE <= Product(k, x + 1.0) - k <= TOLERANCE
    ensures x == 0.0 ==> Product(k, x + 1.0) == k
  {
    Shrinks(k, if x >= 0.0 then x else -x);
    Linear(k, x);
  }

  lemma {:induction false} Shrinks(k: real, x: real)
    requires 0.0 <= k <= 1.0 && x >= 0.0
    ensures 0.0 <= Product(k, x) <= x
  {
    var rest := (1.0 - k) * x;
    assert rest == x - k * x;
    NonNegative(1.0 - k, x);
    NonNegative(k, x);
  }

  lemma {:induction false} Linear(k: real, x: real)
    ensures Product(k, x + 1.0) == Product(k, x) + k && Product(k, -x) == -Product(k, x) && Product(k, 1.0) == k
  {
  }

  /** A policy that puts everything on the first action. */
  function Certain(n: nat): seq<real>
    requires n >= 1
  {
    [1.0] + seq(n - 1, _ => 0.0)
  }

  lemma {:induction false} SumOfZeros(n: nat)
    ensures Sum(seq(n, _ => 0.0)) == 0.0
  {
    var s := seq(n, _ => 0.0);
    if n == 0 {
    } else {
      assert s[..n - 1] == seq(n - 1, _ => 0.0);
      SumOfZeros(n - 1);
    }
  }

  lemma {:induction false} SumCons(x: real, s: seq<real>)
    ensures Sum([x] + s) == x + Sum(s)
  {
    if s == [] {
      assert [x] + s == [] + [x];
      SumSnoc([], x);
    } else {
      SumCons(x, s[..|s| - 1]);
      assert ([x] + s)[..|s|] == [x] + s[..|s| - 1];
    }
  }

  /** The floor holds for every policy over n actions if and only if n epsilon is at most 1. */
  lemma {:induction false} FloorHoldsIff(n: nat, epsilon: real)
    requires n >= 2 && epsilon >= 0.0
    ensures (forall p: seq<real> :: |p| == n && Distribution(p) ==> AtLeast(Floored(p, epsilon), epsilon))
      <==> Times(n, epsilon) <= 1.0
  {
    if Times(n, epsilon) <= 1.0 {
      forall p: seq<real> | |p| == n && Distribution(p) ensures AtLeast(Floored(p, epsilon), epsilon) {
        FlooredIsDistribution(p, epsilon);
      }
    } else {
      var p := Certain(n);
      CertainSum(n);
      FlooredAt(n, 1.0, epsilon);
      assert Floored(p, epsilon)[0] < epsilon;
    }
  }

  /** What a learner makes of its gradient. */
  function Policy(gradient: seq<real>, theta: real, epsilon: real): seq<real> {
    Floored(Normalised(Projected(gradient, theta, 0.0)), epsilon)
  }

  /** For every gradient and every random choice of the simplex step the new policy is a
      distribution with at least epsilon for each action. */
  lemma {:induction false} PolicyIsValid(gradient: seq<real>, rng: nat -> nat, theta: real, epsilon: real)
    requires Threshold(gradient, AcceptedIndices(gradient, 1.0, rng), 1.0, theta)
    requires epsilon >= 0.0 && Times(|gradient|, epsilon) <= 1.0
    ensures var p := Policy(gradient, theta, epsilon);
      |p| == |gradient| && Distribution(p) && AtLeast(p, epsilon)
    ensures !CloseToOne(Sum(Projected(gradient, theta, 0.0))) ==> Sum(Policy(gradient, theta, epsilon)) == 1.0
  {
    var q := Projected(gradient, theta, 0.0);
    ProjectedSum(gradient, AcceptedIndices(gradient, 1.0, rng), 1.0, theta);
    NormalisedIsDistribution(q);
    FlooredIsDistribution(Normalised(q), epsilon);
  }

  /** Renormalising keeps every component's share of the sum, and does nothing where the sum is held
      to be 1. */
  lemma {:induction false} NormalisedKeepsShares(p: seq<real>, i: nat)
    requires AtLeast(p, 0.0) && Sum(p) >= 1.0 && i < |p|
    ensures |Normalised(p)| == |p|
    ensures CloseToOne(Sum(p)) ==> Normalised(p)[i] == p[i]
    ensures !CloseToOne(Sum(p)) ==> Product(Normalised(p)[i], Sum(p)) == p[i]
  {
    hide Sum;
    if !CloseToOne(Sum(p)) { TimesInverse(p[i], Sum(p)); }
  }

  lemma {:induction false} TimesInverse(x: real, sum: real)
    requires sum > 0.0
    ensures Product(Product(x, 1.0 / sum), sum) == x
  {
    assert (1.0 / sum) * sum == 1.0;
    assert x * (1.0 / sum) * sum == x * ((1.0 / sum) * sum);
  }

  /** What a component of the projected gradient exceeds the floor by: the room that n times epsilon
      leaves, times its share. */
  lemma {:induction false} PolicyKeepsShares(gradient: seq<real>, rng: nat -> nat, theta: real, epsilon: real, i: nat)
    requires Threshold(gradient, AcceptedIndices(gradient, 1.0, rng), 1.0, theta) && i < |gradient|
    ensures var n, p, q := |gradient|, Policy(gradient, theta, epsilon), Projected(gradient, theta, 0.0);
      && |p| == |q| == n && Sum(q) >= 1.0
      && (!CloseToOne(Sum(q)) ==>
           Product(p[i] - epsilon, Sum(q)) == Product(1.0 - Times(n, epsilon), q[i]))
      && (CloseToOne(Sum(q)) ==> p[i] - epsilon == Product(1.0 - Times(n, epsilon), q[i]))
  {
    var n, q := |gradient|, Projected(gradient, theta, 0.0);
    ProjectedSum(gradient, AcceptedIndices(gradient, 1.0, rng), 1.0, theta);
    hide Threshold, AcceptedIndices, Projected, Sum, Product, Times, Between, MaxEpsilon, Normalised;
    NormalisedKeepsShares(q, i);
    FlooredAt(n, Normalised(q)[i], epsilon);
    ProductThrough(1.0 - Times(n, epsilon), Normalised(q)[i], Sum(q));
  }

  lemma {:induction false} ProductThrough(k: real, x: real, sum: real)
    ensures Product(Product(k, x), sum) == Product(k, Product(x, sum))
  {
  }

  /** As long as n epsilon is below 1, the policy keeps the order of the gradient: of two actions the
      one of greater gradient is the more probable, or both have been cut off and get epsilon. */
  lemma {:induction false} PolicyFollowsGradient(
    gradient: seq<real>, rng: nat -> nat, theta: real, epsilon: real, i: nat, j: nat)
    requires Threshold(gradient, AcceptedIndices(gradient, 1.0, rng), 1.0, theta)
    requires i < |gradient| && j < |gradient| && Times(|gradient|, epsilon) < 1.0
    ensures var p := Policy(gradient, theta, epsilon);
      && |p| == |gradient| && (p[i] > epsilon <==> gradient[i] > theta) && p[i] >= epsilon
      && (p[i] < p[j] <==> gradient[i] < gradient[j] && gradient[j] > theta)
  {
    var q, p := Projected(gradient, theta, 0.0), Policy(gradient, theta, epsilon);
    var room := 1.0 - Times(|gradient|, epsilon);
    PolicyKeepsShares(gradient, rng, theta, epsilon, i);
    PolicyKeepsShares(gradient, rng, theta, epsilon, j);
    hide Threshold, AcceptedIndices, Policy, Sum, Product, Times;
    var k := if CloseToOne(Sum(q)) then 1.0 else Sum(q);
    ProductCommutes(p[i] - epsilon, 1.0);
    ProductCommutes(p[j] - epsilon, 1.0);
    ProductOne(p[i] - epsilon);
    ProductOne(p[j] - epsilon);
    SameOrder(p[i] - epsilon, p[j] - epsilon, k, q[i], q[j], room);
    SameOrder(0.0, p[i] - epsilon, k, 0.0, q[i], room);
    ProductAdds(0.0, 0.0, k);
    ProductCommutes(room, 0.0);
    ProductAdds(0.0, 0.0, room);
  }

  lemma {:induction false} SameOrder(x: real, y: real, k: real, a: real, b: real, room: real)
    requires k > 0.0 && room > 0.0 && Product(x, k) == Product(room, a) && Product(y, k) == Product(room, b)
    ensures (x < y <==> a < b) && (x == y <==> a == b)
  {
    SignOfProduct(y - x, k);
    SignOfProduct(b - a, room);
    assert Product(y - x, k) == Product(b - a, room);
  }

  /** A certain policy is a fixed point of the simplex step, for every random choice. */
  lemma {:induction false} CertainStays(n: nat, rng: nat -> nat)
    requires n >= 1
    ensures Threshold(Certain(n), AcceptedIndices(Certain(n), 1.0, rng), 1.0, 0.0)
    ensures forall theta: real :: Threshold(Certain(n), AcceptedIndices(Certain(n), 1.0, rng), 1.0, theta) ==>
      theta == 0.0
    ensures Normalised(Projected(Certain(n), 0.0, 0.0)) == Certain(n)
  {
    var p, marks := Certain(n), AcceptedIndices(Certain(n), 1.0, rng);
    CertainSum(n);
    assert Projected(p, 0.0, 0.0) == p;
    assert Level(p, 1.0, 0.0) && FirstAbove(p, 0.0, 0);
    CertainAccepted(n, rng);
    LevelIsSurplus(p, 1.0, 0.0, marks);
    SurplusIs(p, marks, 0.0);
    MarkedOnce(marks, 0);
    forall theta: real | Threshold(p, marks, 1.0, theta) ensures theta == 0.0 {
      FavourableProjects(p, 1.0, 0.0, 0, rng, theta);
    }
  }

  lemma {:induction false} CertainSum(n: nat)
    requires n >= 1
    ensures Sum(Certain(n)) == 1.0 && Distribution(Certain(n))
  {
    SumOfZeros(n - 1);
    SumCons(1.0, seq(n - 1, _ => 0.0));
  }

  lemma {:induction false} CertainAccepted(n: nat, rng: nat -> nat)
    requires n >= 1 && Level(Certain(n), 1.0, 0.0) && FirstAbove(Certain(n), 0.0, 0)
    ensures AcceptedIndices(Certain(n), 1.0, rng) == Tail(n, 0)
  {
    Untouched(n);
    forall j: nat | j < n ensures j in AllIndices(n) { assert AllIndices(n)[j] == j; }
    AcceptsFrom(Certain(n), 1.0, 0.0, 0, rng, 0, AllIndices(n), NoMarks(n));
  }

  /** For the gradient (1, 0) and epsilon 0.6 every random choice leaves the first action only 0.4. */
  lemma {:induction false} FloorMissed(rng: nat -> nat, theta: real)
    requires Threshold([1.0, 0.0], AcceptedIndices([1.0, 0.0], 1.0, rng), 1.0, theta)
    ensures Policy([1.0, 0.0], theta, 0.6) == [0.4, 0.6]
  {
    assert Certain(2) == [1.0, 0.0];
    CertainStays(2, rng);
  }

  /** Over all gradients and random choices: the learners leave every one of n actions at least
      epsilon if and only if n epsilon is at most 1. */
  lemma {:induction false} LearnersFloorIff(n: nat, epsilon: real)
    requires n >= 2 && epsilon >= 0.0
    ensures (forall gradient: seq<real>, rng: nat -> nat, theta: real ::
        |gradient| == n && Threshold(gradient, AcceptedIndices(gradient, 1.0, rng), 1.0, theta) ==>
        AtLeast(Policy(gradient, theta, epsilon), epsilon))
      <==> Times(n, epsilon) <= 1.0
  {
    hide AcceptedIndices, Threshold;
    if Times(n, epsilon) <= 1.0 {
      forall gradient: seq<real>, rng: nat -> nat, theta: real
        | |gradient| == n && Threshold(gradient, AcceptedIndices(gradient, 1.0, rng), 1.0, theta)
        ensures AtLeast(Policy(gradient, theta, epsilon), epsilon)
      {
        PolicyIsValid(gradient, rng, theta, epsilon);
      }
    } else {
      var p, rng := Certain(n), (_: nat) => 0 as nat;
      CertainStays(n, rng);
      FlooredAt(n, 1.0, epsilon);
      assert Policy(p, 0.0, epsilon)[0] < epsilon;
    }
  }

  /** Flooring keeps every policy of sum 1 a policy, with or without the floor, if and only if
      (n - 1) epsilon is at most 1. */
  lemma {:induction false} FlooredIsPolicyIff(n: nat, epsilon: real)
    requires n >= 2 && epsilon >= 0.0
    ensures (forall p: seq<real> :: |p| == n && AtLeast(p, 0.0) && Sum(p) == 1.0 ==>
        AtLeast(Floored(p, epsilon), 0.0) && Sum(Floored(p, epsilon)) == 1.0)
      <==> Times(n - 1, epsilon) <= 1.0
  {
    if Times(n - 1, epsilon) <= 1.0 {
      forall p: seq<real> | |p| == n && AtLeast(p, 0.0) && Sum(p) == 1.0
        ensures AtLeast(Floored(p, epsilon), 0.0) && Sum(Floored(p, epsilon)) == 1.0
      {
        FlooredIsPolicy(p, epsilon);
      }
    } else {
      var p := Certain(n);
      CertainSum(n);
      MaxIs(n, epsilon);
      BetweenEnds(epsilon, MaxEpsilon(n, epsilon));
      assert Floored(p, epsilon)[0] < 0.0;
    }
  }

  lemma {:induction false} MaxIs(n: nat, epsilon: real)
    ensures MaxEpsilon(n, epsilon) == 1.0 - Times(n - 1, epsilon)
    ensures Times(n, epsilon) == Times(n - 1, epsilon) + epsilon
  {
  }

  lemma {:induction false} BetweenEnds(lo: real, hi: real)
    ensures Between(lo, hi, 0.0) == lo && Between(lo, hi, 1.0) == hi
  {
  }

  lemma {:induction false} BetweenNonNegative(lo: real, hi: real, x: real)
    requires lo >= 0.0 && hi >= 0.0 && 0.0 <= x <= 1.0
    ensures Between(lo, hi, x) >= 0.0
  {
    NonNegative(lo, 1.0 - x);
    NonNegative(hi, x);
    assert Between(lo, hi, x) == Product(lo, 1.0 - x) + Product(hi, x);
  }

  lemma {:induction false} ComponentAtMostSum(p: seq<real>, i: nat)
    requires AtLeast(p, 0.0) && i < |p|
    ensures p[i] <= Sum(p) && Sum(p) >= 0.0
  {
    var n := |p| - 1;
    if i < n {
      ComponentAtMostSum(p[..n], i);
    } else {
      SumNotNegative(p[..n]);
    }
  }

  lemma {:induction false} SumNotNegative(p: seq<real>)
    requires AtLeast(p, 0.0)
    ensures Sum(p) >= 0.0
  {
    if p == [] {
    } else {
      SumNotNegative(p[..|p| - 1]);
    }
  }

  lemma {:induction false} FlooredIsPolicy(p: seq<real>, epsilon: real)
    requires AtLeast(p, 0.0) && Sum(p) == 1.0 && epsilon >= 0.0 && Times(|p| - 1, epsilon) <= 1.0
    ensures AtLeast(Floored(p, epsilon), 0.0) && Sum(Floored(p, epsilon)) == 1.0
  {
    hide Product, Between, Times, MaxEpsilon, Sum;
    var n, r := |p|, Floored(p, epsilon);
    MaxIs(n, epsilon);
    forall i | 0 <= i < n ensures r[i] >= 0.0 {
      ComponentAtMostSum(p, i);
      BetweenNonNegative(epsilon, MaxEpsilon(n, epsilon), p[i]);
    }
    SumMapped(p, epsilon, MaxEpsilon(n, epsilon));
    ProductOne(MaxEpsilon(n, epsilon) - epsilon);
    ProductCommutes(1.0, MaxEpsilon(n, epsilon) - epsilon);
  }

  // ---- the gradients -----------------------------------------------------------------------

  /** The value of the current policy: the q-values weighted by its probabilities. */
  function Value(q: seq<real>, weights: seq<real>): real
    requires |q| == |weights|
  {
    if q == [] then 0.0 else Value(q[..|q| - 1], weights[..|q| - 1]) + q[|q| - 1] * weights[|q| - 1]
  }

  /** WeightedPolicyLearner: a gain is slowed down as the probability nears 1, a loss as it
      nears 0. */
  function WeightedStep(q: real, mean: real, weight: real, eta: real): real {
    var diff := q - mean;
    weight + if diff > 0.0 then Product(Product(diff, eta), 1.0 - weight) else Product(Product(diff, eta), weight)
  }

  function WeightedGradient(q: seq<real>, weights: seq<real>, eta: real): (r: seq<real>)
    requires |q| == |weights|
    ensures |r| == |q|
  {
    seq(|q|, i requires 0 <= i < |q| => WeightedStep(q[i], Value(q, weights), weights[i], eta))
  }

  /** FairActionLearner. */
  function FairStep(q: real, mean: real, weight: real, eta: real): real { weight + Product(eta, q - mean) }

  function FairGradient(q: seq<real>, weights: seq<real>, eta: real): (r: seq<real>)
    requires |q| == |weights|
    ensures |r| == |q|
  {
    seq(|q|, i requires 0 <= i < |q| => FairStep(q[i], Value(q, weights), weights[i], eta))
  }

  /** The value weighs every q-value by its own probability: it is 0 for the zero vector, and moving
      one probability moves it by that much of that action's q-value. */
  lemma {:induction false} ValueIsWeighted(q: seq<real>, weights: seq<real>, i: nat, x: real)
    requires |q| == |weights| && i < |q|
    ensures Value(q, weights[i := x]) - Value(q, weights) == Product(q[i], x - weights[i])
    ensures (forall k :: 0 <= k < |weights| ==> weights[k] == 0.0) ==> Value(q, weights) == 0.0
  {
    var n := |q| - 1;
    if i < n {
      assert weights[i := x][..n] == weights[..n][i := x];
      ValueIsWeighted(q[..n], weights[..n], i, x);
    } else {
      assert weights[i := x][..n] == weights[..n];
      assert q[n] * x - q[n] * weights[n] == q[n] * (x - weights[n]);
      if forall k :: 0 <= k < |weights| ==> weights[k] == 0.0 { ZeroValue(q[..n], weights[..n]); }
    }
  }

  lemma {:induction false} ZeroValue(q: seq<real>, weights: seq<real>)
    requires |q| == |weights| && forall k :: 0 <= k < |weights| ==> weights[k] == 0.0
    ensures Value(q, weights) == 0.0
  {
    if q == [] {
    } else {
      ZeroValue(q[..|q| - 1], weights[..|q| - 1]);
    }
  }

  /** The value of a policy lies between the least and the greatest q-value. */
  lemma {:induction false} ValueBetween(q: seq<real>, weights: seq<real>, lo: real, hi: real)
    requires |q| == |weights| && AtLeast(weights, 0.0) && forall i :: 0 <= i < |q| ==> lo <= q[i] <= hi
    ensures Product(lo, Sum(weights)) <= Value(q, weights) <= Product(hi, Sum(weights))
  {
    hide Product;
    if q == [] {
      ProductCommutes(lo, 0.0);
      ProductCommutes(hi, 0.0);
      ProductAdds(0.0, 0.0, lo);
      ProductAdds(0.0, 0.0, hi);
    } else {
      var n := |q| - 1;
      ValueBetween(q[..n], weights[..n], lo, hi);
      ValueGrows(lo, q[n], hi, Sum(weights[..n]), weights[n]);
    }
  }

  lemma {:induction false} ValueGrows(lo: real, q: real, hi: real, sum: real, w: real)
    requires lo <= q <= hi && w >= 0.0
    ensures Product(lo, sum + w) - Product(lo, sum) <= q * w <= Product(hi, sum + w) - Product(hi, sum)
  {
    NonNegative(q - lo, w);
    NonNegative(hi - q, w);
  }

  /** `x` moved by the share `k` towards `y`. */
  function Towards(x: real, y: real, k: real): real { x + Product(k, y - x) }

  /** The weighted learner moves a probability by the share eta times the difference of values:
      towards 1 where the action is better than the policy, towards 0 where it is worse. So it stays
      a probability as long as that share is at most 1. */
  lemma {:induction false} WeightedMovesTowards(q: real, mean: real, weight: real, eta: real)
    requires eta >= 0.0
    ensures q >= mean ==> WeightedStep(q, mean, weight, eta) == Towards(weight, 1.0, Product(eta, q - mean))
    ensures q <= mean ==> WeightedStep(q, mean, weight, eta) == Towards(weight, 0.0, Product(eta, mean - q))
    ensures 0.0 <= weight <= 1.0 && -1.0 <= Product(eta, q - mean) <= 1.0 ==>
      0.0 <= WeightedStep(q, mean, weight, eta) <= 1.0
  {
    hide Product;
    var d := Product(eta, q - mean);
    ProductCommutes(q - mean, eta);
    Negated(eta, q - mean, d, weight);
    NoProduct(eta, weight);
    if 0.0 <= weight <= 1.0 && -1.0 <= d <= 1.0 {
      if q > mean {
        NonNegative(eta, q - mean);
        Shrinks(d, 1.0 - weight);
      } else {
        NonNegative(eta, mean - q);
        Shrinks(-d, weight);
      }
    }
  }

  lemma {:induction false} Negated(k: real, x: real, d: real, y: real)
    ensures Product(k, -x) == -Product(k, x)
    ensures Product(-d, 0.0 - y) == Product(d, y) && Product(-d, y) == -Product(d, y)
  {
  }

  lemma {:induction false} NoProduct(k: real, y: real)
    ensures Product(k, 0.0) == 0.0 && Product(0.0, y) == 0.0 && Product(0.0, 1.0 - y) == 0.0
  {
  }

  /** The fair learner moves two actions apart by eta times the difference of their values, and an
      action that is as good as the policy not at all. */
  lemma {:induction false} FairMovesApart(q: seq<real>, weights: seq<real>, eta: real, i: nat, j: nat)
    requires |q| == |weights| && i < |q| && j < |q|
    ensures var g := FairGradient(q, weights, eta);
      && (g[i] - weights[i]) - (g[j] - weights[j]) == Product(eta, q[i] - q[j])
      && (q[i] == Value(q, weights) ==> g[i] == weights[i])
  {
    var m := Value(q, weights);
    assert eta * (q[i] - m) - eta * (q[j] - m) == eta * (q[i] - q[j]);
  }

  /** Both learners move an action up exactly where its value exceeds the policy's value; the
      weighted one only for probabilities strictly between 0 and 1. */
  lemma {:induction false} GradientFollowsValue(q: seq<real>, weights: seq<real>, eta: real, i: nat)
    requires |q| == |weights| && i < |q| && eta > 0.0
    ensures FairGradient(q, weights, eta)[i] > weights[i] <==> q[i] > Value(q, weights)
    ensures 0.0 < weights[i] < 1.0 ==>
      (WeightedGradient(q, weights, eta)[i] > weights[i] <==> q[i] > Value(q, weights))
    ensures 0.0 < weights[i] < 1.0 ==>
      (WeightedGradient(q, weights, eta)[i] < weights[i] <==> q[i] < Value(q, weights))
  {
    hide Value, FairStep, WeightedStep;
    FairStepFollows(q[i], Value(q, weights), weights[i], eta);
    if 0.0 < weights[i] < 1.0 { WeightedStepFollows(q[i], Value(q, weights), weights[i], eta); }
  }

  lemma {:induction false} FairStepFollows(q: real, mean: real, weight: real, eta: real)
    requires eta > 0.0
    ensures FairStep(q, mean, weight, eta) > weight <==> q > mean
  {
    hide Product;
    SignOfProduct(q - mean, eta);
    ProductCommutes(q - mean, eta);
  }

  lemma {:induction false} WeightedStepFollows(q: real, mean: real, weight: real, eta: real)
    requires eta > 0.0 && 0.0 < weight < 1.0
    ensures WeightedStep(q, mean, weight, eta) > weight <==> q > mean
    ensures WeightedStep(q, mean, weight, eta) < weight <==> q < mean
  {
    hide Product;
    SignOfProduct(q - mean, eta);
    SignOfProduct(Product(q - mean, eta), 1.0 - weight);
    SignOfProduct(Product(q - mean, eta), weight);
  }

  lemma {:induction false} SignOfProduct(x: real, k: real)
    requires k > 0.0
    ensures (Product(x, k) > 0.0 <==> x > 0.0) && (Product(x, k) < 0.0 <==> x < 0.0)
  {
  }

  // ---- choosing an action ------------------------------------------------------------------

  /** An action with its probability. */
  type Option = (nat, real)

  function InsertByProbability(s: seq<Option>, x: Option): seq<Option> {
    if s == [] || x.1 > s[0].1 then [x] + s else [s[0]] + InsertByProbability(s[1..], x)
  }

  /** Sorted by falling probability. */
  function SortByProbability(s: seq<Option>): seq<Option> {
    if s == [] then [] else InsertByProbability(SortByProbability(s[..|s| - 1]), s[|s| - 1])
  }

  lemma {:induction false} InsertContents(s: seq<Option>, x: Option)
    ensures multiset(InsertByProbability(s, x)) == multiset(s) + multiset{x}
  {
    if s == [] || x.1 > s[0].1 {
    } else {
      InsertContents(s[1..], x);
      assert s == [s[0]] + s[1..];
    }
  }

  ghost predicate Falling(s: seq<Option>) {
    forall i, j :: 0 <= i < j < |s| ==> s[i].1 >= s[j].1
  }

  lemma {:induction false} InsertFalling(s: seq<Option>, x: Option)
    requires Falling(s)
    ensures Falling(InsertByProbability(s, x))
  {
    if s == [] || x.1 > s[0].1 {
    } else {
      InsertFalling(s[1..], x);
      InsertContents(s[1..], x);
      var t := InsertByProbability(s[1..], x);
      forall j | 0 <= j < |t| ensures s[0].1 >= t[j].1 {
        assert t[j] in multiset(t);
        assert t[j] == x || t[j] in s[1..];
      }
    }
  }

  lemma {:induction false} SortKeeps(s: seq<Option>)
    ensures multiset(SortByProbability(s)) == multiset(s) && |SortByProbability(s)| == |s|
    ensures Falling(SortByProbability(s))
  {
    if s == [] {
    } else {
      var front := SortByProbability(s[..|s| - 1]);
      SortKeeps(s[..|s| - 1]);
      InsertContents(front, s[|s| - 1]);
      InsertFalling(front, s[|s| - 1]);
      assert s == s[..|s| - 1] + [s[|s| - 1]];
      assert |multiset(SortByProbability(s))| == |multiset(s)|;
    }
  }

  /** The probabilities of the first k options, added up. */
  function Cumulated(s: seq<Option>, k: nat): real
    requires k <= |s|
  {
    if k == 0 then 0.0 else Cumulated(s, k - 1) + s[k - 1].1
  }

  /** The position at which the scan stops: the first whose cumulated probability exceeds the
      draw; the last one if there is none. */
  function Position(s: seq<Option>, u: real, k: nat): (r: nat)
    requires k < |s|
    ensures k <= r < |s|
    decreases |s| - k
  {
    if u < Cumulated(s, k + 1) || k == |s| - 1 then k else Position(s, u, k + 1)
  }

  lemma {:induction false} CumulatedGrows(s: seq<Option>, i: nat, j: nat)
    requires i <= j <= |s| && forall k :: 0 <= k < |s| ==> s[k].1 >= 0.0
    ensures Cumulated(s, i) <= Cumulated(s, j)
  {
    if i == j {
    } else {
      CumulatedGrows(s, i, j - 1);
    }
  }

  /** Each action is chosen for an interval of draws as long as its probability: from the sum of
      the probabilities before it up to that sum and its own; the last takes what is left. */
  lemma {:induction false} ChosenByProbability(s: seq<Option>, u: real, k: nat, r: nat)
    requires k <= r < |s| && u >= Cumulated(s, k) && forall i :: 0 <= i < |s| ==> s[i].1 >= 0.0
    ensures Position(s, u, k) == r <==> Cumulated(s, r) <= u && (r < |s| - 1 ==> u < Cumulated(s, r + 1))
    decreases |s| - k
  {
    if u < Cumulated(s, k + 1) {
      if k < r { CumulatedGrows(s, k + 1, r); }
    } else if k < |s| - 1 {
      if k < r { ChosenByProbability(s, u, k + 1, r); }
    }
  }

  /** Where the options stand after sorting. */
  lemma {:induction false} SortedPlace(pairs: seq<Option>, k: nat) returns (r: nat)
    requires k < |pairs| && forall i, j :: 0 <= i < j < |pairs| ==> pairs[i].0 != pairs[j].0
    ensures var s := SortByProbability(pairs);
      && r < |s| == |pairs| && s[r] == pairs[k]
      && forall i :: 0 <= i < |s| && i != r ==> s[i].0 != pairs[k].0
  {
    hide SortByProbability;
    var s := SortByProbability(pairs);
    SortKeeps(pairs);
    assert pairs[k] in multiset(s);
    r :| 0 <= r < |s| && s[r] == pairs[k];
    forall i | 0 <= i < |s| && i != r ensures s[i].0 != pairs[k].0 {
      assert s[i] in multiset(pairs);
      var j :| 0 <= j < |pairs| && pairs[j] == s[i];
      if j == k { SamePlace(s, i, r, pairs, k); }
    }
  }

  /** One of a list of distinct options has only one place in a permutation of the list. */
  lemma {:induction false} SamePlace(s: seq<Option>, i: nat, r: nat, pairs: seq<Option>, k: nat)
    requires k < |pairs| && forall i, j :: 0 <= i < j < |pairs| ==> pairs[i].0 != pairs[j].0
    requires multiset(s) == multiset(pairs) && i < |s| && r < |s| && s[i] == s[r] == pairs[k]
    ensures i == r
  {
    OnePlace(pairs, k);
    if i < r {
      TwoPlaces(s, i, r);
    } else if r < i {
      TwoPlaces(s, r, i);
    }
  }

  lemma {:induction false} TwoPlaces(s: seq<Option>, i: nat, j: nat)
    requires i < j < |s| && s[i] == s[j]
    ensures multiset(s)[s[i]] >= 2
  {
    var front, back := s[..j], s[j..];
    assert s == front + back;
    assert front[i] in multiset(front) && back[0] in multiset(back);
  }

  lemma {:induction false} OnePlace(pairs: seq<Option>, k: nat)
    requires k < |pairs| && forall i, j :: 0 <= i < j < |pairs| ==> pairs[i].0 != pairs[j].0
    ensures multiset(pairs)[pairs[k]] == 1
  {
    var front, back := pairs[..k], pairs[k + 1..];
    assert pairs == front + [pairs[k]] + back;
    assert pairs[k] !in front && pairs[k] !in back;
    assert pairs[k] !in multiset(front) && pairs[k] !in multiset(back);
  }

  /** Over all draws: each offered action is chosen for an interval of draws as long as the
      probability that the policy gives it; the least probable one for all that are left. */
  lemma {:induction false} ChosenForItsProbability(pairs: seq<Option>, k: nat) returns (lo: real, last: bool)
    requires k < |pairs| && forall i, j :: 0 <= i < j < |pairs| ==> pairs[i].0 != pairs[j].0
    requires forall i :: 0 <= i < |pairs| ==> pairs[i].1 >= 0.0
    ensures var s := SortByProbability(pairs);
      && |s| == |pairs|
      && (forall u: real :: u >= 0.0 ==>
        (s[Position(s, u, 0)].0 == pairs[k].0 <==> lo <= u && (last || u < lo + pairs[k].1)))
    ensures last ==> forall i :: 0 <= i < |pairs| ==> pairs[i].1 >= pairs[k].1
  {
    hide SortByProbability;
    var s := SortByProbability(pairs);
    SortKeeps(pairs);
    var r := SortedPlace(pairs, k);
    lo, last := Cumulated(s, r), r == |s| - 1;
    forall i | 0 <= i < |s| ensures s[i].1 >= 0.0 {
      assert s[i] in multiset(pairs);
    }
    forall u: real | u >= 0.0
      ensures s[Position(s, u, 0)].0 == pairs[k].0 <==> lo <= u && (last || u < lo + pairs[k].1)
    {
      ChosenByProbability(s, u, 0, r);
    }
    forall i | last && 0 <= i < |pairs| ensures pairs[i].1 >= pairs[k].1 {
      assert pairs[i] in multiset(s);
      var j :| 0 <= j < |s| && s[j] == pairs[i];
    }
  }
}
