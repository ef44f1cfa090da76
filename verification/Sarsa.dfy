/** The response handler's SARSA step: q-values of out-edges and the next action of a vertex,
    updated by each acknowledgement. */
module SarsaLearning {
  import opened Entries
  import opened Network
  import Policies
  import opened NetworkServers
  import opened NetworkRoutes
  import opened NetworkRuns
  import opened NetworkEffects
  import opened Statistics
  import opened RealSums

  /** Learning rate, discount, and the bound of the rewards. */
  datatype Rates = Rates(alpha: real, lambda: real)

  ghost predicate LegalRates(r: Rates) {
    0.0 <= r.alpha <= 1.0 && 0.0 <= r.lambda < 1.0
  }

  /** The new q-value as the handler computes it. */
  function NewQ(r: Rates, oldQ: real, nextQ: real, reward: real): real {
    var alphaLambdaQ := r.alpha * r.lambda * nextQ;
    var alphaOldQ := r.alpha * oldQ;
    oldQ + r.alpha * reward + (alphaLambdaQ - alphaOldQ)
  }

  /** The lowest q-value that rewards of at least -R can lead to. */
  function Lowest(r: Rates, R: real): real
    requires r.lambda < 1.0
  {
    -R / (1.0 - r.lambda)
  }

  /** `x` moved by the share alpha towards `y`. */
  function Mixed(alpha: real, x: real, y: real): real { Product(1.0 - alpha, x) + Product(alpha, y) }

  /** Reward plus discounted value. */
  function Target(r: Rates, nextQ: real, reward: real): real { reward + Product(r.lambda, nextQ) }

  /** The step is SARSA's: the old value moves by alpha towards reward plus discounted value. */
  lemma {:induction false} NewQIsSarsa(r: Rates, oldQ: real, nextQ: real, reward: real)
    ensures NewQ(r, oldQ, nextQ, reward) == Mixed(r.alpha, oldQ, Target(r, nextQ, reward))
  {
    assert r.alpha * (reward + r.lambda * nextQ) == r.alpha * reward + r.alpha * (r.lambda * nextQ);
    assert r.alpha * (r.lambda * nextQ) == r.alpha * r.lambda * nextQ;
  }

  lemma {:induction false} LowestIsFixed(r: Rates, R: real)
    requires LegalRates(r) && R >= 0.0
    ensures Target(r, Lowest(r, R), -R) == Lowest(r, R) && Lowest(r, R) <= -R <= 0.0
  {
    hide Product;
    var l, d := Lowest(r, R), 1.0 - r.lambda;
    NegativeQuotient(R, d);
    assert Product(d, l) == -R;
    assert Product(r.lambda + d, l) == Product(r.lambda, l) + Product(d, l) by { ProductAdds(r.lambda, d, l); }
    assert r.lambda + d == 1.0;
    assert Product(1.0, l) == l by { ProductOne(l); }
  }

  lemma {:induction false} NegativeQuotient(a: real, d: real)
    requires a >= 0.0 && 0.0 < d <= 1.0
    ensures Product(d, -a / d) == -a && -a / d <= -a
  {
    var x := a / d;
    assert x * d == a;
    NotNegative(x, d);
    NonNegative(x, 1.0 - d);
    assert Product(x, 1.0 - d) == x - x * d;
    assert -a / d == -x;
  }

  lemma {:induction false} NotNegative(x: real, d: real)
    requires d > 0.0 && x * d >= 0.0
    ensures x >= 0.0
  {
  }

  /** A product grows with its second factor. */
  lemma {:induction false} ProductMonotone(k: real, x: real, y: real)
    requires k >= 0.0 && x <= y
    ensures Product(k, x) <= Product(k, y)
  {
    NonNegative(k, y - x);
    assert Product(k, y - x) == Product(k, y) - Product(k, x);
  }

  lemma {:induction false} MixedBetween(alpha: real, x: real, y: real, lo: real, hi: real)
    requires 0.0 <= alpha <= 1.0 && lo <= x <= hi && lo <= y <= hi
    ensures lo <= Mixed(alpha, x, y) <= hi
  {
    hide Product;
    ProductMonotone(1.0 - alpha, lo, x);
    ProductMonotone(alpha, lo, y);
    ProductMonotone(1.0 - alpha, x, hi);
    ProductMonotone(alpha, y, hi);
    MixedWithSelf(alpha, lo);
    MixedWithSelf(alpha, hi);
  }

  lemma {:induction false} MixedWithSelf(alpha: real, x: real)
    ensures Product(1.0 - alpha, x) + Product(alpha, x) == x
  {
    ProductAdds(1.0 - alpha, alpha, x);
    ProductOne(x);
  }

  /** One step keeps a q-value between the lowest value and zero. */
  lemma {:induction false} NewQBounded(r: Rates, R: real, oldQ: real, nextQ: real, reward: real)
    requires LegalRates(r) && R >= 0.0 && -R <= reward <= 0.0
    requires Lowest(r, R) <= oldQ <= 0.0 && Lowest(r, R) <= nextQ <= 0.0
    ensures Lowest(r, R) <= NewQ(r, oldQ, nextQ, reward) <= 0.0
  {
    hide Lowest, Product, NewQ, Mixed;
    var l := Lowest(r, R);
    LowestIsFixed(r, R);
    NewQIsSarsa(r, oldQ, nextQ, reward);
    ProductMonotone(r.lambda, l, nextQ);
    ProductMonotone(r.lambda, nextQ, 0.0);
    ProductCommutes(r.lambda, 0.0);
    ProductAdds(0.0, 0.0, r.lambda);
    MixedBetween(r.alpha, oldQ, Target(r, nextQ, reward), l, 0.0);
  }

  // ---- tables ------------------------------------------------------------------------------

  /** q-values of all edges, the statistics of edges that are a vertex's only one, and the next
      action of each vertex. */
  datatype Table = Table(
    q: map<Policies.EdgeKey, real>, stats: map<Policies.EdgeKey, Accumulator>, nextAction: map<nat, int>)

  ghost predicate Complete(g: Graph, t: Table) {
    && WellFormed(g)
    && forall u: nat, v: nat :: u < |g| && v < |g| && IsEdge(g, u, v) ==> (u, v) in t.q && (u, v) in t.stats
  }

  /** RLResponseHandler::update for an acknowledgement at `v` from `origin`; `choice` is the action
      that the policy returns. */
  function Respond(g: Graph, r: Rates, t: Table, v: nat, origin: nat, choice: nat, reward: real): Table
    requires v < |g| && Complete(g, t)
    requires |g[v]| > 1 ==> IsEdge(g, v, origin) && IsEdge(g, v, choice) && origin < |g| && choice < |g|
  {
    if |g[v]| > 1 then
      var newQ := NewQ(r, t.q[(v, origin)], t.q[(v, choice)], reward);
      t.(q := t.q[(v, origin) := newQ], nextAction := t.nextAction[v := choice])
    else if |g[v]| == 1 then
      assert IsEdge(g, v, g[v][0]);
      var e := (v, g[v][0]);
      var s := Added(t.stats[e], reward);
      t.(q := t.q[e := MeanOf(s)], stats := t.stats[e := s], nextAction := t.nextAction[v := g[v][0]])
    else t.(nextAction := t.nextAction[v := 0])
  }

  /** A map keeps its entries, but for the one at `k`, which becomes `x`. */
  ghost predicate ChangedAt<K(!new), V(!new)>(m: map<K, V>, m': map<K, V>, k: K, x: V) {
    m'.Keys == m.Keys + {k} && m'[k] == x && forall j :: j in m && j != k ==> m'[j] == m[j]
  }

  /** Where there is a choice, the q-value of the edge over which the acknowledgement came takes
      SARSA's step towards reward plus discounted value of the next action's edge; all other
      q-values, all statistics and all other next actions stay. */
  lemma {:induction false} RespondMovesEdge(
    g: Graph, r: Rates, t: Table, v: nat, origin: nat, choice: nat, reward: real)
    requires v < |g| && Complete(g, t) && |g[v]| > 1
    requires IsEdge(g, v, origin) && IsEdge(g, v, choice) && origin < |g| && choice < |g|
    ensures var t' := Respond(g, r, t, v, origin, choice, reward);
      && (v, origin) in t.q && (v, choice) in t.q
      && ChangedAt(t.q, t'.q, (v, origin),
           Mixed(r.alpha, t.q[(v, origin)], Target(r, t.q[(v, choice)], reward)))
      && t'.stats == t.stats && ChangedAt(t.nextAction, t'.nextAction, v, choice as int)
  {
    hide NewQ, Mixed, Target;
    NewQIsSarsa(r, t.q[(v, origin)], t.q[(v, choice)], reward);
  }

  /** Where there is one out-edge, its q-value becomes the mean of all rewards received so far. */
  lemma {:induction false} RespondAverages(
    g: Graph, r: Rates, t: Table, v: nat, origin: nat, choice: nat, reward: real, log: seq<real>)
    requires v < |g| && Complete(g, t) && |g[v]| == 1
    requires (v, g[v][0]) in t.stats ==> Represents(t.stats[(v, g[v][0])], log)
    ensures var e, t' := (v, g[v][0]), Respond(g, r, t, v, origin, choice, reward);
      && e in t.stats && e in t'.stats && Represents(t'.stats[e], log + [reward])
      && e in t'.q && Times(|log| + 1, t'.q[e]) == Sum(log + [reward])
      && ChangedAt(t.q, t'.q, e, t'.q[e]) && ChangedAt(t.stats, t'.stats, e, t'.stats[e])
      && ChangedAt(t.nextAction, t'.nextAction, v, g[v][0] as int)
  {
    hide Represents, Added, MeanOf;
    assert IsEdge(g, v, g[v][0]);
    var s := t.stats[(v, g[v][0])];
    Statistics.PushKeeps(s, log, reward);
    WelfordCorrect(Added(s, reward), log + [reward]);
  }

  /** Where there is none, nothing is learned. */
  lemma {:induction false} RespondAtSink(
    g: Graph, r: Rates, t: Table, v: nat, origin: nat, choice: nat, reward: real)
    requires v < |g| && Complete(g, t) && g[v] == []
    ensures var t' := Respond(g, r, t, v, origin, choice, reward);
      t'.q == t.q && t'.stats == t.stats && ChangedAt(t.nextAction, t'.nextAction, v, 0)
  {
  }

  /** The invariant of learning. */
  ghost predicate Bounded(g: Graph, r: Rates, R: real, t: Table)
    requires r.lambda < 1.0
  {
    && Complete(g, t)
    && (forall e :: e in t.q ==> Lowest(r, R) <= t.q[e] <= 0.0)
    && (forall e :: e in t.stats ==> StatsBounded(t.stats[e], R))
  }

  ghost predicate StatsBounded(a: Accumulator, R: real) {
    (a.n >= 1 ==> -R <= a.oldM <= 0.0) && (a.n >= 2 ==> a.newM == a.oldM)
  }

  lemma {:induction false} StatsStayBounded(a: Accumulator, R: real, x: real)
    requires StatsBounded(a, R) && -R <= x <= 0.0
    ensures StatsBounded(Added(a, x), R) && -R <= MeanOf(Added(a, x)) <= 0.0
  {
    hide Added;
    MeanStaysBetween(a, x, -R, 0.0);
    AddedOne(a, x);
  }

  lemma {:induction false} AddedOne(a: Accumulator, x: real)
    ensures Added(a, x).n == a.n + 1
  {
  }

  /** One acknowledgement. */
  datatype Response = Response(v: nat, origin: nat, choice: nat, reward: real)

  /** What the network guarantees of it: where there is a choice, it came from an out-neighbour
      and the policy offers one; rewards are never positive, and assumed at least -R. */
  ghost predicate LegalResponse(g: Graph, R: real, x: Response) {
    && x.v < |g| && -R <= x.reward <= 0.0
    && (|g[x.v]| > 1 ==> IsEdge(g, x.v, x.origin) && IsEdge(g, x.v, x.choice) && x.origin < |g| && x.choice < |g|)
  }

  lemma {:induction false} RespondKeepsBounds(g: Graph, r: Rates, R: real, t: Table, x: Response)
    requires LegalRates(r) && R >= 0.0 && Bounded(g, r, R, t) && LegalResponse(g, R, x)
    ensures Bounded(g, r, R, Respond(g, r, t, x.v, x.origin, x.choice, x.reward))
  {
    hide Lowest, NewQ, Added, MeanOf, StatsBounded;
    var v := x.v;
    if |g[v]| > 1 {
      NewQBounded(r, R, t.q[(v, x.origin)], t.q[(v, x.choice)], x.reward);
    } else if |g[v]| == 1 {
      assert IsEdge(g, v, g[v][0]);
      LowestIsFixed(r, R);
      StatsStayBounded(t.stats[(v, g[v][0])], R, x.reward);
    }
  }

  /** The table after a sequence of acknowledgements. */
  ghost function Learned(g: Graph, r: Rates, R: real, t: Table, xs: seq<Response>): Table
    requires LegalRates(r) && R >= 0.0 && Bounded(g, r, R, t)
    requires forall i :: 0 <= i < |xs| ==> LegalResponse(g, R, xs[i])
    ensures Bounded(g, r, R, Learned(g, r, R, t, xs))
  {
    if xs == [] then t
    else
      var n, x := |xs| - 1, xs[|xs| - 1];
      var before := Learned(g, r, R, t, xs[..n]);
      RespondKeepsBounds(g, r, R, before, x);
      Respond(g, r, before, x.v, x.origin, x.choice, x.reward)
  }

  /** In every run of acknowledgements every q-value lies between -R/(1-lambda) and zero. */
  lemma {:induction false} QValuesStayBounded(
    g: Graph, r: Rates, R: real, t: Table, xs: seq<Response>, e: Policies.EdgeKey)
    requires LegalRates(r) && R >= 0.0 && Bounded(g, r, R, t)
    requires forall i :: 0 <= i < |xs| ==> LegalResponse(g, R, xs[i])
    requires e in Learned(g, r, R, t, xs).q
    ensures -R / (1.0 - r.lambda) <= Learned(g, r, R, t, xs).q[e] <= 0.0
  {
    assert Bounded(g, r, R, Learned(g, r, R, t, xs));
  }

  // ---- the handler -------------------------------------------------------------------------

  /** The acknowledgements that the network hands to the response handler are legal ones: they
      come over an out-edge, and their reward is not positive. */
  lemma {:induction false} NetworkRespondsLegally(c: Config, w: World, a: Action, R: real)
    requires RoutesOk(c, w, []) && Possible(c, w, a)
    requires var e := w.pending[a.index]; (e.kind.Ack? || e.kind.Ack1Hop?) && e.arrivals != [] && e.Reward() >= -R
    ensures var e := w.pending[a.index];
      && 0 <= e.destination < |c.graph|
      && (|c.graph[e.destination]| > 1 ==>
        && e.origin >= 0 && a.draws.choice >= 0
        && LegalResponse(c.graph, R, Response(e.destination, e.origin, a.draws.choice, e.Reward())))
  {
    hide RoutesOk, EventsOk;
    var e := w.pending[a.index];
    AcknowledgedOverEdge(c, w, e);
    GraphIsWellFormed(c, w);
    if |c.graph[e.destination]| > 1 {
      EdgeEnds(c.graph, e.destination, e.origin);
      EdgeEnds(c.graph, e.destination, a.draws.choice);
    }
  }

  lemma {:induction false} GraphIsWellFormed(c: Config, w: World)
    requires RoutesOk(c, w, [])
    ensures WellFormed(c.graph)
  {
  }

  lemma {:induction false} EdgeEnds(g: Graph, u: int, v: int)
    requires WellFormed(g) && IsEdge(g, u, v)
    ensures 0 <= v < |g|
  {
    var k :| 0 <= k < |g[u]| && g[u][k] == v;
  }

  /** Is this an event that the response handler sees? */
  predicate Acknowledges(e: Entry) { e.kind.Ack? || e.kind.Ack1Hop? }

  /** The table after the first `n` steps of a network run: each acknowledgement is responded to. */
  ghost function LearnedAlong(c: Config, r: Rates, t: Table, ws: seq<World>, acts: seq<Action>, n: nat): Table
    requires |ws| == |acts| + 1 && n <= |acts|
  {
    if n == 0 then t
    else
      var t' := LearnedAlong(c, r, t, ws, acts, n - 1);
      var w, a := ws[n - 1], acts[n - 1];
      if a.index < |w.pending| && Acknowledges(w.pending[a.index]) then RespondTo(c, r, t', w, a) else t'
  }

  /** The response to the event that a step hands out, where it is defined. */
  ghost function RespondTo(c: Config, r: Rates, t: Table, w: World, a: Action): Table
    requires a.index < |w.pending|
  {
    var e := Corrected(w.pending[a.index], w.now);
    if Complete(c.graph, t) && e.arrivals != [] && Responds(c, e, a.draws.choice)
    then Respond(c.graph, r, t, e.destination, if e.origin >= 0 then e.origin else 0,
                 if a.draws.choice >= 0 then a.draws.choice else 0, e.Reward())
    else t
  }

  ghost predicate Responds(c: Config, e: Entry, choice: int) {
    && 0 <= e.destination < |c.graph|
    && (|c.graph[e.destination]| > 1 ==>
      && 0 <= e.origin < |c.graph| && IsEdge(c.graph, e.destination, e.origin)
      && 0 <= choice < |c.graph| && IsEdge(c.graph, e.destination, choice))
  }

  /** Rewards of a run are at least -R. */
  ghost predicate RewardsAtLeast(ws: seq<World>, acts: seq<Action>, R: real)
    requires |ws| == |acts| + 1
  {
    forall k: nat :: k < |acts| ==> RewardAtLeast(ws[k], acts[k], R)
  }

  ghost predicate RewardAtLeast(w: World, a: Action, R: real) {
    a.index < |w.pending| && Acknowledges(w.pending[a.index]) ==>
      var e := Corrected(w.pending[a.index], w.now); e.arrivals != [] ==> e.Reward() >= -R
  }

  /** The response to a step of a run is defined. */
  lemma {:induction false} StepResponds(c: Config, w: World, a: Action)
    requires RoutesOk(c, w, []) && Possible(c, w, a) && Acknowledges(w.pending[a.index])
    ensures var e := Corrected(w.pending[a.index], w.now); e.arrivals != [] && Responds(c, e, a.draws.choice)
  {
    hide RoutesOk;
    var e := w.pending[a.index];
    EventsAreHandled(c, w, e);
    AcknowledgedOverEdge(c, w, e);
    GraphIsWellFormed(c, w);
    if |c.graph[e.destination]| > 1 {
      EdgeEnds(c.graph, e.destination, e.origin);
      EdgeEnds(c.graph, e.destination, a.draws.choice);
    }
  }

  /** One step of a run: the response is defined and keeps the q-values bounded. */
  lemma {:induction false} StepKeepsBounds(c: Config, r: Rates, R: real, t: Table, w: World, a: Action)
    requires RoutesOk(c, w, []) && Possible(c, w, a) && Acknowledges(w.pending[a.index])
    requires LegalRates(r) && R >= 0.0 && Bounded(c.graph, r, R, t) && RewardAtLeast(w, a, R)
    ensures var e := Corrected(w.pending[a.index], w.now); e.arrivals != [] && Responds(c, e, a.draws.choice)
    ensures Bounded(c.graph, r, R, RespondTo(c, r, t, w, a))
  {
    hide RoutesOk, Bounded, Respond;
    var e := Corrected(w.pending[a.index], w.now);
    StepResponds(c, w, a);
    BoundedIsComplete(c.graph, r, R, t);
    RespondKeepsBounds(c.graph, r, R, t, Response(e.destination, if e.origin >= 0 then e.origin else 0,
      if a.draws.choice >= 0 then a.draws.choice else 0, e.Reward()));
  }

  lemma {:induction false} BoundedIsComplete(g: Graph, r: Rates, R: real, t: Table)
    requires r.lambda < 1.0 && Bounded(g, r, R, t)
    ensures Complete(g, t)
  {
  }

  /** In every run of the network from the start, in whatever order, with rewards of at least -R, the
      acknowledgements keep every q-value between -R/(1-lambda) and zero. */
  lemma {:induction false} RunsKeepQValuesBounded(
    c: Config, r: Rates, R: real, t: Table, ws: seq<World>, acts: seq<Action>, n: nat)
    requires IsFreeRun(c, ws, acts) && Initial(c, ws[0]) && n <= |acts|
    requires LegalRates(r) && R >= 0.0 && Bounded(c.graph, r, R, t) && RewardsAtLeast(ws, acts, R)
    ensures Bounded(c.graph, r, R, LearnedAlong(c, r, t, ws, acts, n))
    ensures forall e :: e in LearnedAlong(c, r, t, ws, acts, n).q ==>
      -R / (1.0 - r.lambda) <= LearnedAlong(c, r, t, ws, acts, n).q[e] <= 0.0
  {
    if n == 0 {
    } else {
      RunsKeepQValuesBounded(c, r, R, t, ws, acts, n - 1);
      var l := n - 1;
      var w, a := ws[l], acts[l];
      FreeRunsAreSafe(c, ws, acts, l);
      assert StepsTo(c, w, a, ws[l + 1]) && RewardAtLeast(w, a, R);
      hide RoutesOk, Bounded, StepsTo, RewardAtLeast;
      if Acknowledges(w.pending[a.index]) {
        StepKeepsBounds(c, r, R, LearnedAlong(c, r, t, ws, acts, l), w, a);
      }
    }
    QValuesOf(c.graph, r, R, LearnedAlong(c, r, t, ws, acts, n));
  }

  lemma {:induction false} QValuesOf(g: Graph, r: Rates, R: real, t: Table)
    requires LegalRates(r) && Bounded(g, r, R, t)
    ensures forall e :: e in t.q ==> -R / (1.0 - r.lambda) <= t.q[e] <= 0.0
  {
  }

  // ---- what is learned along a run ---------------------------------------------------------

  /** The rewards received at `v` in the first `n` steps of a run. */
  ghost function RewardsAt(ws: seq<World>, acts: seq<Action>, n: nat, v: nat): seq<real>
    requires |ws| == |acts| + 1 && n <= |acts|
  {
    if n == 0 then []
    else
      var front, w, a := RewardsAt(ws, acts, n - 1, v), ws[n - 1], acts[n - 1];
      if a.index < |w.pending| && Acknowledges(w.pending[a.index]) && w.pending[a.index].destination == v
         && w.pending[a.index].arrivals != []
      then front + [Corrected(w.pending[a.index], w.now).Reward()] else front
  }

  /** The q-value of the only out-edge of `v` is the mean of the rewards logged. */
  ghost predicate Averages(g: Graph, t: Table, v: nat, log: seq<real>)
    requires v < |g| && |g[v]| == 1
  {
    var e := (v, g[v][0]);
    && e in t.q && e in t.stats && Represents(t.stats[e], log)
    && (log != [] ==> Times(|log|, t.q[e]) == Sum(log))
  }

  /** What an acknowledgement of vertex `e.destination` does to the averages at `v`. */
  lemma {:induction false} ResponseAverages(
    c: Config, r: Rates, t: Table, w: World, a: Action, v: nat, log: seq<real>)
    requires RoutesOk(c, w, []) && Possible(c, w, a) && Acknowledges(w.pending[a.index])
    requires v < |c.graph| && |c.graph[v]| == 1 && Complete(c.graph, t) && Averages(c.graph, t, v, log)
    ensures a.index < |w.pending| && w.pending[a.index].arrivals != []
    ensures Complete(c.graph, RespondTo(c, r, t, w, a))
    ensures var e := Corrected(w.pending[a.index], w.now);
      Averages(c.graph, RespondTo(c, r, t, w, a), v, if e.destination == v then log + [e.Reward()] else log)
  {
    hide RoutesOk, Respond, Represents, Times, Sum;
    StepResponds(c, w, a);
    var e := Corrected(w.pending[a.index], w.now);
    var u, origin := e.destination, if e.origin >= 0 then e.origin else 0;
    var choice := if a.draws.choice >= 0 then a.draws.choice else 0;
    if |c.graph[u]| > 1 {
      RespondMovesEdge(c.graph, r, t, u, origin, choice, e.Reward());
    } else if |c.graph[u]| == 0 {
      RespondAtSink(c.graph, r, t, u, origin, choice, e.Reward());
    } else if u == v {
      RespondAverages(c.graph, r, t, u, origin, choice, e.Reward(), log);
    } else {
      RespondElsewhere(c.graph, r, t, u, origin, choice, e.Reward());
    }
  }

  /** A response at a vertex with one out-edge leaves all other edges alone. */
  lemma {:induction false} RespondElsewhere(
    g: Graph, r: Rates, t: Table, v: nat, origin: nat, choice: nat, reward: real)
    requires v < |g| && Complete(g, t) && |g[v]| == 1
    ensures var e, t' := (v, g[v][0]), Respond(g, r, t, v, origin, choice, reward);
      && e in t.stats && t'.q.Keys == t.q.Keys + {e} && t'.stats.Keys == t.stats.Keys
      && forall k :: k != e ==> (k in t.q ==> t'.q[k] == t.q[k]) && (k in t.stats ==> t'.stats[k] == t.stats[k])
  {
    assert IsEdge(g, v, g[v][0]);
  }

  /** In every run from the start the q-value of a vertex's only out-edge is the mean of all rewards
      received at that vertex. */
  lemma {:induction false} OnlyEdgeIsAveraged(
    c: Config, r: Rates, t: Table, ws: seq<World>, acts: seq<Action>, n: nat, v: nat)
    requires IsFreeRun(c, ws, acts) && Initial(c, ws[0]) && n <= |acts|
    requires v < |c.graph| && |c.graph[v]| == 1 && Complete(c.graph, t) && Averages(c.graph, t, v, [])
    ensures Complete(c.graph, LearnedAlong(c, r, t, ws, acts, n))
    ensures Averages(c.graph, LearnedAlong(c, r, t, ws, acts, n), v, RewardsAt(ws, acts, n, v))
  {
    hide RoutesOk, Complete, Averages, Step, Handled;
    if n == 0 {
    } else {
      OnlyEdgeIsAveraged(c, r, t, ws, acts, n - 1, v);
      var w, a := ws[n - 1], acts[n - 1];
      FreeRunsAreSafe(c, ws, acts, n);
      FreeRunsAreSafe(c, ws, acts, n - 1);
      InBounds(c, w, a);
      if Acknowledges(w.pending[a.index]) {
        ResponseAverages(c, r, LearnedAlong(c, r, t, ws, acts, n - 1), w, a, v, RewardsAt(ws, acts, n - 1, v));
      }
    }
  }

  /** The handler and the departures agree on the next action of every vertex. */
  ghost predicate SameActions(c: Config, t: Table, w: World) {
    && |w.nextAction| == |c.graph|
    && forall v: nat :: v < |c.graph| ==> v in t.nextAction && t.nextAction[v] == w.nextAction[v]
  }

  lemma {:induction false} ResponseSameActions(c: Config, r: Rates, t: Table, w: World, a: Action)
    requires RoutesOk(c, w, []) && Ready(c, w, a) && Acknowledges(w.pending[a.index]) && c.learning
    requires Complete(c.graph, t) && SameActions(c, t, w)
    ensures Complete(c.graph, RespondTo(c, r, t, w, a)) && SameActions(c, RespondTo(c, r, t, w, a), Step(c, w, a))
  {
    hide RoutesOk, Respond, Step, NewQ, Ready;
    ReadyIsSized(c, w, a);
    StepResponds(c, w, a);
    ActionIsStored(c, w, a);
    var e := Corrected(w.pending[a.index], w.now);
    var u, origin := e.destination, if e.origin >= 0 then e.origin else 0;
    var choice := if a.draws.choice >= 0 then a.draws.choice else 0;
    if |c.graph[u]| > 1 {
      RespondMovesEdge(c.graph, r, t, u, origin, choice, e.Reward());
    } else if |c.graph[u]| == 0 {
      RespondAtSink(c.graph, r, t, u, origin, choice, e.Reward());
    } else {
      RespondElsewhere(c.graph, r, t, u, origin, choice, e.Reward());
      RespondStores(c.graph, r, t, u, origin, choice, e.Reward());
    }
  }

  lemma {:induction false} ReadyIsSized(c: Config, w: World, a: Action)
    requires Ready(c, w, a)
    ensures Sized(c, w) && Possible(c, w, a) && Handled(c, w.pending[a.index])
  {
  }

  lemma {:induction false} RespondStores(
    g: Graph, r: Rates, t: Table, v: nat, origin: nat, choice: nat, reward: real)
    requires v < |g| && Complete(g, t) && |g[v]| == 1
    ensures ChangedAt(t.nextAction, Respond(g, r, t, v, origin, choice, reward).nextAction, v, g[v][0] as int)
  {
    assert IsEdge(g, v, g[v][0]);
  }

  /** In every run from the start, with learning on, the next actions that the response handler
      stores are those by which departures go. */
  lemma {:induction false} ActionsAgree(
    c: Config, r: Rates, t: Table, ws: seq<World>, acts: seq<Action>, n: nat)
    requires IsFreeRun(c, ws, acts) && Initial(c, ws[0]) && n <= |acts| && c.learning
    requires Complete(c.graph, t) && SameActions(c, t, ws[0])
    ensures Complete(c.graph, LearnedAlong(c, r, t, ws, acts, n))
    ensures SameActions(c, LearnedAlong(c, r, t, ws, acts, n), ws[n])
  {
    hide RoutesOk, Complete, Step, Handled, SameActions, RespondTo, Possible;
    if n == 0 {
    } else {
      ActionsAgree(c, r, t, ws, acts, n - 1);
      var w, a := ws[n - 1], acts[n - 1];
      FreeRunsAreSafe(c, ws, acts, n);
      FreeRunsAreSafe(c, ws, acts, n - 1);
      InBounds(c, w, a);
      if Acknowledges(w.pending[a.index]) {
        ResponseSameActions(c, r, LearnedAlong(c, r, t, ws, acts, n - 1), w, a);
      } else {
        OtherStepsSameActions(c, LearnedAlong(c, r, t, ws, acts, n - 1), w, a);
      }
    }
  }

  lemma {:induction false} OtherStepsSameActions(c: Config, t: Table, w: World, a: Action)
    requires Ready(c, w, a) && !Acknowledges(w.pending[a.index]) && SameActions(c, t, w)
    ensures SameActions(c, t, Step(c, w, a))
  {
    hide Step;
    ActionIsStored(c, w, a);
  }

  class RLResponseHandler {
    const graph: Graph
    const rates: Rates
    var q: map<Policies.EdgeKey, real>
    var stats: map<Policies.EdgeKey, Accumulator>
    var nextAction: map<nat, int>

    ghost function View(): Table
      reads this
    {
      Table(q, stats, nextAction)
    }

    constructor (graph: Graph, rates: Rates, t: Table)
      ensures this.graph == graph && this.rates == rates && View() == t
    {
      this.graph, this.rates := graph, rates;
      q, stats, nextAction := t.q, t.stats, t.nextAction;
    }

    /** An acknowledgement `e`; `choice` is what the policy returns where it is asked. */
    method Update(e: Entry, choice: nat, ghost R: real)
      requires 0 <= e.destination < |graph| && e.arrivals != []
      requires LegalRates(rates) && R >= 0.0 && Bounded(graph, rates, R, View()) && e.Reward() >= -R
      requires |graph[e.destination]| > 1 ==>
        e.origin >= 0 && LegalResponse(graph, R, Response(e.destination, e.origin, choice, e.Reward()))
      modifies this
      ensures View() == Respond(graph, rates, old(View()), e.destination, if e.origin >= 0 then e.origin else 0,
                                choice, e.Reward())
      ensures Bounded(graph, rates, R, View())
    {
      hide NewQ, Added, MeanOf, Lowest, StatsBounded;
      var v: nat := e.destination;
      RespondKeepsBounds(graph, rates, R, View(),
        Response(v, if e.origin >= 0 then e.origin else 0, choice, e.Reward()));
      var degree := |graph[v]|;
      var newAction := 0;
      var reward := e.Reward();
      if degree > 1 {
        newAction := choice;
        var oldQ := q[(v, e.origin)];
        var nextQ := q[(v, newAction)];
        q := q[(v, e.origin) := NewQ(rates, oldQ, nextQ, reward)];
      } else if degree == 1 {
        newAction := graph[v][0];
        assert IsEdge(graph, v, newAction);
        var s := Added(stats[(v, newAction)], reward);
        stats := stats[(v, newAction) := s];
        q := q[(v, newAction) := MeanOf(s)];
      }
      nextAction := nextAction[v := newAction];
    }
  }
}
