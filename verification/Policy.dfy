/** The policy-gradient learners. The policy of a vertex is kept as the weights of its out-edges,
    and each call moves it along a gradient before an action is chosen from it. */
module Policies {
  import opened RealSums
  import opened Simplex
  import opened PolicySpec

  type EdgeKey = (nat, nat)

  function Actions(values: seq<Option>): seq<nat> {
    seq(|values|, i requires 0 <= i < |values| => values[i].0)
  }

  function Values(values: seq<Option>): seq<real> {
    seq(|values|, i requires 0 <= i < |values| => values[i].1)
  }

  /** Edges to all offered actions exist, and no action is offered twice. */
  ghost predicate Offered(weights: map<EdgeKey, real>, source: nat, values: seq<Option>) {
    && (forall i :: 0 <= i < |values| ==> (source, values[i].0) in weights)
    && (forall i, j :: 0 <= i < j < |values| ==> values[i].0 != values[j].0)
  }

  /** The weights of the edges to the offered actions. */
  function WeightsOf(weights: map<EdgeKey, real>, source: nat, values: seq<Option>): (r: seq<real>)
    requires forall i :: 0 <= i < |values| ==> (source, values[i].0) in weights
    ensures |r| == |values|
  {
    seq(|values|, i requires 0 <= i < |values| => weights[(source, values[i].0)])
  }

  function Paired(values: seq<Option>, p: seq<real>): (r: seq<Option>)
    requires |p| == |values|
    ensures |r| == |p|
  {
    seq(|values|, i requires 0 <= i < |values| => (values[i].0, p[i]))
  }

  /** Writing a policy changes the weights of the offered edges only. */
  ghost predicate Written(before: map<EdgeKey, real>, after: map<EdgeKey, real>, source: nat,
      values: seq<Option>, p: seq<real>)
    requires |p| == |values| && Offered(before, source, values)
  {
    && after.Keys == before.Keys
    && WeightsOf(after, source, values) == p
    && forall e :: e in before && (forall i :: 0 <= i < |values| ==> e != (source, values[i].0)) ==>
      after[e] == before[e]
  }

  // ---- loops over arrays -------------------------------------------------------------------

  method Mult(p: array<real>, k: real)
    modifies p
    ensures p[..] == Scaled(old(p[..]), k)
  {
    for i := 0 to p.Length
      invariant forall j :: 0 <= j < i ==> p[j] == Product(old(p[j]), k)
      invariant forall j :: i <= j < p.Length ==> p[j] == old(p[j])
    {
      p[i] := Product(p[i], k);
    }
  }

  method Scale(p: array<real>, min: real, max: real)
    modifies p
    ensures p[..] == Mapped(old(p[..]), min, max)
  {
    for i := 0 to p.Length
      invariant forall j :: 0 <= j < i ==> p[j] == Between(min, max, old(p[j]))
      invariant forall j :: i <= j < p.Length ==> p[j] == old(p[j])
    {
      p[i] := Between(min, max, p[i]);
    }
  }

  method Accumulate(p: array<real>) returns (sum: real)
    ensures sum == Sum(p[..])
  {
    sum := 0.0;
    for i := 0 to p.Length
      invariant sum == Sum(p[..i])
    {
      assert p[..i + 1] == p[..i] + [p[i]];
      SumSnoc(p[..i], p[i]);
      sum := sum + p[i];
    }
    assert p[..p.Length] == p[..];
  }

  /** The tail that both learners share: simplex step, renormalisation and floor. */
  method MakePolicy(gradient: array<real>, epsilon: real, rng: nat -> nat) returns (ghost theta: real)
    requires gradient.Length >= 1
    modifies gradient
    ensures Threshold(old(gradient[..]), AcceptedIndices(old(gradient[..]), 1.0, rng), 1.0, theta)
    ensures gradient[..] == Policy(old(gradient[..]), theta, epsilon)
  {
    hide Threshold, AcceptedIndices, Product, MaxEpsilon;
    theta := ProjectionDuchi(gradient, 1.0, 0.0, rng);
    var sum := Accumulate(gradient);
    assert sum >= 1.0 by { SumAtLeastOne(old(gradient[..]), rng, theta); }
    if !CloseToOne(sum) {
      Mult(gradient, 1.0 / sum);
    }
    Scale(gradient, epsilon, MaxEpsilon(gradient.Length, epsilon));
  }

  lemma {:induction false} SumAtLeastOne(p: seq<real>, rng: nat -> nat, theta: real)
    requires Threshold(p, AcceptedIndices(p, 1.0, rng), 1.0, theta)
    ensures Sum(Projected(p, theta, 0.0)) >= 1.0
  {
    ProjectedSum(p, AcceptedIndices(p, 1.0, rng), 1.0, theta);
  }

  /** The scan over the sorted probabilities. */
  method Roulette(s: seq<Option>, u: real) returns (action: nat)
    requires s != []
    ensures action == s[Position(s, u, 0)].0
  {
    var temp := 0.0;
    for k := 0 to |s|
      invariant temp == Cumulated(s, k)
      invariant k < |s| ==> Position(s, u, 0) == Position(s, u, k)
      invariant k == |s| ==> Position(s, u, 0) == |s| - 1
    {
      temp := temp + s[k].1;
      if u < temp {
        return s[k].0;
      }
    }
    action := s[|s| - 1].0;
  }

  /** The chosen action is one of those offered. */
  lemma {:induction false} PositionIsOffered(values: seq<Option>, p: seq<real>, u: real)
    requires |p| == |values| && values != []
    ensures var s := SortByProbability(Paired(values, p));
      s != [] && s[Position(s, u, 0)].0 in Actions(values)
  {
    var pairs := Paired(values, p);
    var s := SortByProbability(pairs);
    SortKeeps(pairs);
    var x := s[Position(s, u, 0)];
    assert x in multiset(s);
    assert x in pairs;
    var i :| 0 <= i < |pairs| && pairs[i] == x;
    assert Actions(values)[i] == x.0;
  }

  class Learner {
    const epsilon: real
    const eta: real
    var weights: map<EdgeKey, real>

    constructor (epsilon: real, eta: real, weights: map<EdgeKey, real>)
      ensures this.epsilon == epsilon && this.eta == eta && this.weights == weights
    {
      this.epsilon, this.eta, this.weights := epsilon, eta, weights;
    }

    /** The value of the current policy. */
    method MeanValue(source: nat, values: seq<Option>) returns (orig: array<real>, mean: real)
      requires Offered(weights, source, values)
      ensures fresh(orig) && orig[..] == WeightsOf(weights, source, values)
      ensures mean == Value(Values(values), orig[..])
    {
      orig := new real[|values|];
      mean := 0.0;
      for i := 0 to |values|
        invariant forall j :: 0 <= j < i ==> orig[j] == weights[(source, values[j].0)]
        invariant mean == Value(Values(values)[..i], orig[..i])
      {
        orig[i] := weights[(source, values[i].0)];
        assert Values(values)[..i + 1][..i] == Values(values)[..i] && orig[..i + 1][..i] == orig[..i];
        mean := mean + values[i].1 * orig[i];
      }
      assert Values(values)[..|values|] == Values(values) && orig[..|values|] == orig[..];
    }

    /** Writes the policy to the out-edges. */
    method Write(source: nat, values: seq<Option>, p: array<real>)
      requires Offered(weights, source, values) && p.Length == |values|
      modifies this`weights
      ensures Written(old(weights), weights, source, values, p[..])
    {
      for i := 0 to |values|
        invariant weights.Keys == old(weights.Keys)
        invariant forall j :: 0 <= j < i ==> weights[(source, values[j].0)] == p[j]
        invariant forall e :: e in old(weights) && (forall j :: 0 <= j < |values| ==> e != (source, values[j].0)) ==>
          weights[e] == old(weights)[e]
      {
        weights := weights[(source, values[i].0) := p[i]];
      }
    }

    /** What both learners do with their gradient. */
    method Choose(source: nat, values: seq<Option>, gradient: array<real>, rng: nat -> nat, u: real)
      returns (action: nat, ghost theta: real)
      requires Offered(weights, source, values) && gradient.Length == |values| > 1
      modifies this`weights, gradient
      ensures Threshold(old(gradient[..]), AcceptedIndices(old(gradient[..]), 1.0, rng), 1.0, theta)
      ensures var p := Policy(old(gradient[..]), theta, epsilon);
        |p| == |values| && Written(old(weights), weights, source, values, p)
      ensures var s := SortByProbability(Paired(values, WeightsOf(weights, source, values)));
        s != [] && action == s[Position(s, u, 0)].0
      ensures action in Actions(values)
    {
      hide Threshold, AcceptedIndices, Policy, Position, Written;
      theta := MakePolicy(gradient, epsilon, rng);
      Write(source, values, gradient);
      WrittenWeights(old(weights), weights, source, values, gradient[..]);
      var s := SortByProbability(Paired(values, gradient[..]));
      PositionIsOffered(values, gradient[..], u);
      action := Roulette(s, u);
    }

    /** WeightedPolicyLearner's call. */
    method Weighted(source: nat, values: seq<Option>, rng: nat -> nat, u: real)
      returns (action: nat, ghost theta: real)
      requires Offered(weights, source, values)
      modifies this`weights
      ensures |values| > 1 ==>
        Updated(old(weights), weights, source, values,
          WeightedGradient(Values(values), WeightsOf(old(weights), source, values), eta), rng, theta, epsilon)
      ensures |values| > 1 ==> ChosenFrom(weights, source, values, u, action)
      ensures |values| <= 1 ==> weights == old(weights) && action == if |values| == 1 then values[0].0 else 0
      ensures values != [] ==> action in Actions(values)
    {
      hide Value, WeightedStep, Policy, Threshold, Written, AcceptedIndices, SortByProbability, Position;
      theta := 0.0;
      if |values| > 1 {
        var orig, mean := MeanValue(source, values);
        var gradient := new real[|values|];
        for i := 0 to |values|
          invariant fresh(gradient) && weights == old(weights)
          invariant orig[..] == WeightsOf(weights, source, values) && mean == Value(Values(values), orig[..])
          invariant forall j :: 0 <= j < i ==> gradient[j] == WeightedStep(values[j].1, mean, orig[j], eta)
        {
          gradient[i] := StepOf(values[i].1, mean, orig[i]);
        }
        assert gradient[..] == WeightedGradient(Values(values), orig[..], eta);
        action, theta := Choose(source, values, gradient, rng, u);
      } else if |values| == 1 {
        action := values[0].0;
        assert Actions(values)[0] == action;
      } else {
        action := 0;
      }
    }

    /** One component of the weighted gradient. */
    method StepOf(q: real, mean: real, orig: real) returns (gradient: real)
      ensures gradient == WeightedStep(q, mean, orig, eta)
    {
      var diff := q - mean;
      if diff > 0.0 {
        diff := Product(Product(diff, eta), 1.0 - orig);
      } else {
        diff := Product(Product(diff, eta), orig);
      }
      gradient := orig + diff;
    }

    /** FairActionLearner's call. */
    method Fair(source: nat, values: seq<Option>, rng: nat -> nat, u: real)
      returns (action: nat, ghost theta: real)
      requires Offered(weights, source, values)
      modifies this`weights
      ensures |values| > 1 ==>
        Updated(old(weights), weights, source, values,
          FairGradient(Values(values), WeightsOf(old(weights), source, values), eta), rng, theta, epsilon)
      ensures |values| > 1 ==> ChosenFrom(weights, source, values, u, action)
      ensures |values| <= 1 ==> weights == old(weights) && action == if |values| == 1 then values[0].0 else 0
      ensures values != [] ==> action in Actions(values)
    {
      hide Value, Policy, Threshold, Written, AcceptedIndices, SortByProbability, Position;
      theta := 0.0;
      if |values| > 1 {
        var orig, mean := MeanValue(source, values);
        var gradient := new real[|values|];
        for i := 0 to |values|
          invariant fresh(gradient) && weights == old(weights)
          invariant orig[..] == WeightsOf(weights, source, values) && mean == Value(Values(values), orig[..])
          invariant forall j :: 0 <= j < i ==> gradient[j] == FairStep(values[j].1, mean, orig[j], eta)
        {
          var diff := values[i].1 - mean;
          gradient[i] := orig[i] + Product(eta, diff);
          assert gradient[i] == FairStep(values[i].1, mean, orig[i], eta);
        }
        assert gradient[..] == FairGradient(Values(values), orig[..], eta);
        action, theta := Choose(source, values, gradient, rng, u);
      } else if |values| == 1 {
        action := values[0].0;
        assert Actions(values)[0] == action;
      } else {
        action := 0;
      }
    }

    /** OnPolicySelection: the stored next action if there is one, else a new choice among the
        out-neighbours, by the policy's call on their q-values. */
    method Select(source: nat, nextAction: int, neighbours: seq<nat>, q: map<EdgeKey, real>, rng: nat -> nat, u: real)
      returns (destination: int, ghost theta: real)
      requires Priced(weights, source, neighbours, q)
      modifies this`weights
      ensures nextAction >= 0 ==> destination == nextAction && weights == old(weights)
      ensures nextAction < 0 && neighbours != [] ==> destination >= 0 && destination in neighbours
      ensures nextAction < 0 && |neighbours| > 1 ==>
        var values := Prices(source, neighbours, q);
        && Updated(old(weights), weights, source, values,
             WeightedGradient(Values(values), WeightsOf(old(weights), source, values), eta), rng, theta, epsilon)
        && destination >= 0 && ChosenFrom(weights, source, values, u, destination)
      ensures nextAction < 0 && |neighbours| <= 1 ==> weights == old(weights)
    {
      hide Updated, ChosenFrom, WeightedGradient;
      destination := nextAction;
      theta := 0.0;
      if destination < 0 {
        var values: seq<Option> := [];
        for i := 0 to |neighbours|
          invariant |values| == i
          invariant forall j :: 0 <= j < i ==> values[j] == (neighbours[j], q[(source, neighbours[j])])
        {
          values := values + [(neighbours[i], q[(source, neighbours[i])])];
        }
        assert values == Prices(source, neighbours, q);
        destination, theta := Weighted(source, values, rng, u);
        assert Actions(values) == neighbours;
      }
    }
  }

  /** Every neighbour's edge has a weight and a q-value, and no neighbour occurs twice. */
  ghost predicate Priced(weights: map<EdgeKey, real>, source: nat, neighbours: seq<nat>, q: map<EdgeKey, real>) {
    && (forall i :: 0 <= i < |neighbours| ==> (source, neighbours[i]) in weights && (source, neighbours[i]) in q)
    && (forall i, j :: 0 <= i < j < |neighbours| ==> neighbours[i] != neighbours[j])
  }

  /** The neighbours with their q-values. */
  function Prices(source: nat, neighbours: seq<nat>, q: map<EdgeKey, real>): (r: seq<Option>)
    requires forall i :: 0 <= i < |neighbours| ==> (source, neighbours[i]) in q
    ensures |r| == |neighbours|
  {
    seq(|neighbours|, i requires 0 <= i < |neighbours| => (neighbours[i], q[(source, neighbours[i])]))
  }

  /** The weights after a call are the policy made from the gradient. */
  ghost predicate Updated(before: map<EdgeKey, real>, after: map<EdgeKey, real>, source: nat, values: seq<Option>,
    gradient: seq<real>, rng: nat -> nat, theta: real, epsilon: real)
    requires |gradient| == |values| && Offered(before, source, values)
  {
    && Threshold(gradient, AcceptedIndices(gradient, 1.0, rng), 1.0, theta)
    && |Policy(gradient, theta, epsilon)| == |values|
    && Written(before, after, source, values, Policy(gradient, theta, epsilon))
  }

  /** The action lies where the draw falls among the sorted weights. */
  ghost predicate ChosenFrom(weights: map<EdgeKey, real>, source: nat, values: seq<Option>, u: real, action: nat)
    requires Offered(weights, source, values)
  {
    var s := SortByProbability(Paired(values, WeightsOf(weights, source, values)));
    s != [] && action == s[Position(s, u, 0)].0
  }

  lemma {:induction false} WrittenWeights(before: map<EdgeKey, real>, after: map<EdgeKey, real>, source: nat,
      values: seq<Option>, p: seq<real>)
    requires |p| == |values| && Offered(before, source, values) && Written(before, after, source, values, p)
    ensures Offered(after, source, values) && WeightsOf(after, source, values) == p
  {
  }

  /** After every call the weights of the source's out-edges are a distribution with at least
      epsilon for each action, if n epsilon is at most 1; the other weights are unchanged. */
  lemma {:induction false} LearnersKeepDistributions(before: map<EdgeKey, real>, after: map<EdgeKey, real>,
    source: nat, values: seq<Option>, gradient: seq<real>, rng: nat -> nat, theta: real, epsilon: real)
    requires |gradient| == |values| && Offered(before, source, values)
    requires Updated(before, after, source, values, gradient, rng, theta, epsilon)
    requires epsilon >= 0.0 && Times(|values|, epsilon) <= 1.0
    ensures Offered(after, source, values)
    ensures Distribution(WeightsOf(after, source, values)) && AtLeast(WeightsOf(after, source, values), epsilon)
    ensures forall e :: e in before && e.0 != source ==> e in after && after[e] == before[e]
  {
    PolicyIsValid(gradient, rng, theta, epsilon);
  }

  /** The gradients move each offered edge from its own weight by its own q-value. */
  lemma {:induction false} GradientOfEdge(
    weights: map<EdgeKey, real>, source: nat, values: seq<Option>, eta: real, i: nat)
    requires Offered(weights, source, values) && i < |values|
    ensures var q, p := Values(values), WeightsOf(weights, source, values);
      var mean, weight := Value(q, p), weights[(source, values[i].0)];
      && WeightedGradient(q, p, eta)[i] == WeightedStep(values[i].1, mean, weight, eta)
      && FairGradient(q, p, eta)[i] == FairStep(values[i].1, mean, weight, eta)
  {
    hide Value, WeightedStep, FairStep;
  }

  /** After a call the weights of the offered edges stand in the order of the gradient: the edge with
      the greater component gets the greater weight, unless both are cut off and get epsilon. */
  lemma {:induction false} EdgesFollowGradient(before: map<EdgeKey, real>, after: map<EdgeKey, real>,
    source: nat, values: seq<Option>, gradient: seq<real>, rng: nat -> nat, theta: real, epsilon: real, i: nat, j: nat)
    requires |gradient| == |values| && Offered(before, source, values) && i < |values| && j < |values|
    requires Updated(before, after, source, values, gradient, rng, theta, epsilon)
    requires Times(|values|, epsilon) < 1.0
    ensures Offered(after, source, values)
    ensures var x, y := after[(source, values[i].0)], after[(source, values[j].0)];
      && x >= epsilon && (x > epsilon <==> gradient[i] > theta)
      && (x < y <==> gradient[i] < gradient[j] && gradient[j] > theta)
  {
    hide Threshold, AcceptedIndices, Policy, Times;
    PolicyFollowsGradient(gradient, rng, theta, epsilon, i, j);
    assert after[(source, values[i].0)] == WeightsOf(after, source, values)[i];
    assert after[(source, values[j].0)] == WeightsOf(after, source, values)[j];
  }

  /** Over all draws the action k is chosen for an interval as long as the weight of its edge; the
      least probable one for what is left. */
  lemma {:induction false} ChosenByItsWeight(weights: map<EdgeKey, real>, source: nat, values: seq<Option>, k: nat)
    returns (lo: real, last: bool)
    requires Offered(weights, source, values) && k < |values|
    requires forall i :: 0 <= i < |values| ==> weights[(source, values[i].0)] >= 0.0
    ensures forall u: real, action: nat :: u >= 0.0 && ChosenFrom(weights, source, values, u, action) ==>
      (action == values[k].0 <==> lo <= u && (last || u < lo + weights[(source, values[k].0)]))
    ensures last ==> forall i :: 0 <= i < |values| ==>
      weights[(source, values[i].0)] >= weights[(source, values[k].0)]
  {
    hide SortByProbability, Position;
    var pairs := Paired(values, WeightsOf(weights, source, values));
    assert forall i :: 0 <= i < |values| ==> pairs[i] == (values[i].0, weights[(source, values[i].0)]);
    lo, last := ChosenForItsProbability(pairs, k);
  }
}
