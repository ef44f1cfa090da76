/** The growth of the network: each new vertex is linked to earlier ones, chosen at random in
    proportion to their service rates. */
module Evonets {
  import opened RealSums
  import opened Network
  import opened Entries
  import opened NetworkRoutes
  import opened NetworkRuns
  import opened NetworkDrain

  // ---- one new vertex ----------------------------------------------------------------------

  /** Does the draw fall below a share of the total? */
  predicate Below(u: real, part: real, total: real) {
    total != 0.0 && u < part / total
  }

  ghost predicate Indices(order: seq<nat>, n: nat) {
    forall j :: 0 <= j < |order| ==> order[j] < n
  }

  /** The rates of the first `k` vertices of the order, added up. */
  function Cumulative(order: seq<nat>, rates: seq<real>, k: nat): real
    requires k <= |order| && Indices(order, |rates|)
  {
    if k == 0 then 0.0 else Cumulative(order, rates, k - 1) + rates[order[k - 1]]
  }

  /** A vertex that draw `u` may pick: its share is reached and it is not linked yet. */
  predicate Eligible(order: seq<nat>, rates: seq<real>, total: real, linked: seq<nat>, u: real, j: nat)
    requires j < |order| && Indices(order, |rates|)
  {
    Below(u, Cumulative(order, rates, j + 1), total) && order[j] !in linked
  }

  /** The first eligible position from `j` on; the length of the order if there is none. */
  function Pick(order: seq<nat>, rates: seq<real>, total: real, linked: seq<nat>, u: real, j: nat): (k: nat)
    requires j <= |order| && Indices(order, |rates|)
    ensures j <= k <= |order|
    ensures forall i: nat :: j <= i < k ==> !Eligible(order, rates, total, linked, u, i)
    ensures k < |order| ==> Eligible(order, rates, total, linked, u, k)
    decreases |order| - j
  {
    if j == |order| || Eligible(order, rates, total, linked, u, j) then j
    else Pick(order, rates, total, linked, u, j + 1)
  }

  function Link(order: seq<nat>, rates: seq<real>, total: real, linked: seq<nat>, u: real): seq<nat>
    requires Indices(order, |rates|)
  {
    var k := Pick(order, rates, total, linked, u, 0);
    if k < |order| then linked + [order[k]] else linked
  }

  /** The links made by a sequence of draws. */
  function Links(order: seq<nat>, rates: seq<real>, total: real, us: seq<real>): seq<nat>
    requires Indices(order, |rates|)
  {
    if us == [] then []
    else Link(order, rates, total, Links(order, rates, total, us[..|us| - 1]), us[|us| - 1])
  }

  ghost predicate Distinct(s: seq<nat>) {
    forall i, j :: 0 <= i < j < |s| ==> s[i] != s[j]
  }

  /** Links go to vertices of the order, never twice to the same. */
  lemma {:induction false} LinksAreSimple(order: seq<nat>, rates: seq<real>, total: real, us: seq<real>)
    requires Indices(order, |rates|)
    ensures var l := Links(order, rates, total, us);
      Distinct(l) && Indices(l, |rates|) && |l| <= |us|
  {
    if us == [] {
    } else {
      LinksAreSimple(order, rates, total, us[..|us| - 1]);
    }
  }

  /** Every index below `n` exactly once. */
  ghost predicate Covers(order: seq<nat>, n: nat) {
    |order| == n && Indices(order, n) && Distinct(order) && forall v: nat :: v < n ==> v in order
  }

  /** The vertices in order of their service rates, highest first. */
  ghost predicate IsOrder(order: seq<nat>, rates: seq<real>) {
    && Covers(order, |rates|)
    && (forall i, j :: 0 <= i < j < |order| ==> rates[order[i]] >= rates[order[j]])
  }

  lemma {:induction false} CumulativePrefix(order: seq<nat>, order': seq<nat>, rates: seq<real>,
      rates': seq<real>, k: nat)
    requires k <= |order| && k <= |order'| && Indices(order, |rates|) && Indices(order', |rates'|)
    requires forall i :: 0 <= i < k ==> rates[order[i]] == rates'[order'[i]]
    ensures Cumulative(order, rates, k) == Cumulative(order', rates', k)
  {
    if k == 0 {
    } else {
      CumulativePrefix(order, order', rates, rates', k - 1);
    }
  }

  /** Leaving one position out takes its rate from the sum. */
  lemma {:induction false} CumulativeWithout(order: seq<nat>, rates: seq<real>, p: nat, k: nat)
    requires p < k <= |order| && Indices(order, |rates|)
    ensures Indices(Without(order, p), |rates|)
    ensures Cumulative(order, rates, k) == Cumulative(Without(order, p), rates, k - 1) + rates[order[p]]
  {
    if p == k - 1 {
      CumulativePrefix(order, Without(order, p), rates, rates, p);
    } else {
      CumulativeWithout(order, rates, p, k - 1);
    }
  }

  /** Without its largest index an order covers the others. */
  lemma {:induction false} CoversWithout(order: seq<nat>, n: nat, p: nat)
    requires n > 0 && Covers(order, n) && p < n && order[p] == n - 1
    ensures Covers(Without(order, p), n - 1)
  {
    var order' := Without(order, p);
    forall i | 0 <= i < n - 1 ensures order'[i] < n - 1 {
      assert order'[i] == order[if i < p then i else i + 1];
    }
    forall v: nat | v < n - 1 ensures v in order' {
      assert v in order;
      var q :| 0 <= q < n && order[q] == v;
      assert v == order'[if q < p then q else q - 1];
    }
  }

  /** Added up in any order, the rates give their sum. */
  lemma {:induction false} CumulativeIsSum(order: seq<nat>, rates: seq<real>)
    requires Covers(order, |rates|)
    ensures Cumulative(order, rates, |order|) == Sum(rates)
  {
    var n := |rates|;
    if n == 0 {
    } else {
      assert n - 1 in order;
      var p :| 0 <= p < n && order[p] == n - 1;
      CoversWithout(order, n, p);
      CumulativeWithout(order, rates, p, n);
      CumulativePrefix(Without(order, p), Without(order, p), rates, rates[..n - 1], n - 1);
      CumulativeIsSum(Without(order, p), rates[..n - 1]);
    }
  }

  /** The share reached at position `j` of the order. */
  function ShareAt(order: seq<nat>, rates: seq<real>, j: nat): real
    requires j < |order| && Indices(order, |rates|)
  {
    Cumulative(order, rates, j + 1)
  }

  /** A draw links to position `j` if and only if that vertex is not linked yet, the draw falls below
      the share reached there, and it does not fall below that of any unlinked vertex before it. */
  lemma {:induction false} LinkedIff(
    order: seq<nat>, rates: seq<real>, total: real, linked: seq<nat>, u: real, j: nat)
    requires Indices(order, |rates|) && total > 0.0 && j < |order|
    ensures Pick(order, rates, total, linked, u, 0) == j <==>
      && order[j] !in linked && Product(u, total) < ShareAt(order, rates, j)
      && forall i: nat :: i < j && order[i] !in linked ==> ShareAt(order, rates, i) <= Product(u, total)
  {
    hide Product, Below, Cumulative;
    forall i: nat | i < |order|
      ensures Eligible(order, rates, total, linked, u, i) <==>
        order[i] !in linked && Product(u, total) < ShareAt(order, rates, i)
    {
      BelowIff(u, Cumulative(order, rates, i + 1), total);
    }
    var k := Pick(order, rates, total, linked, u, 0);
    assert k < j ==> Eligible(order, rates, total, linked, u, k);
    assert k > j ==> !Eligible(order, rates, total, linked, u, j);
  }

  /** What one more draw `u` adds to the links that the draws `us` have made: the vertex at position `j`
      if and only if LinkedIff's condition holds there, and none if it holds nowhere. */
  lemma {:induction false} OneMoreDraw(
    order: seq<nat>, rates: seq<real>, total: real, us: seq<real>, u: real, j: nat)
    requires Indices(order, |rates|) && total > 0.0 && j < |order|
    ensures var linked, linked' := Links(order, rates, total, us), Links(order, rates, total, us + [u]);
      && ((&& order[j] !in linked && Product(u, total) < ShareAt(order, rates, j)
           && forall i: nat :: i < j && order[i] !in linked ==> ShareAt(order, rates, i) <= Product(u, total))
          ==> linked' == linked + [order[j]])
      && ((forall i: nat :: i < |order| && order[i] !in linked ==> ShareAt(order, rates, i) <= Product(u, total))
          <==> linked' == linked)
  {
    var linked := Links(order, rates, total, us);
    var k := Pick(order, rates, total, linked, u, 0);
    assert (us + [u])[..|us|] == us;
    assert Links(order, rates, total, us + [u]) == if k < |order| then linked + [order[k]] else linked;
    hide Pick, Links, Product, Cumulative;
    LinkedIff(order, rates, total, linked, u, j);
    if k < |order| {
      LinkedIff(order, rates, total, linked, u, k);
    } else {
      NonePicked(order, rates, total, linked, u);
    }
  }

  lemma {:induction false} NonePicked(order: seq<nat>, rates: seq<real>, total: real, linked: seq<nat>, u: real)
    requires Indices(order, |rates|) && total > 0.0 && Pick(order, rates, total, linked, u, 0) == |order|
    ensures forall i: nat :: i < |order| && order[i] !in linked ==> ShareAt(order, rates, i) <= Product(u, total)
  {
    hide Product, Below, Cumulative;
    forall i: nat | i < |order| && order[i] !in linked ensures ShareAt(order, rates, i) <= Product(u, total) {
      assert !Eligible(order, rates, total, linked, u, i);
      BelowIff(u, Cumulative(order, rates, i + 1), total);
    }
  }

  lemma {:induction false} BelowIff(u: real, part: real, total: real)
    requires total > 0.0
    ensures Below(u, part, total) <==> Product(u, total) < part
  {
    assert part / total * total == part;
  }

  lemma {:induction false} CumulativeGrows(order: seq<nat>, rates: seq<real>, i: nat, j: nat)
    requires Indices(order, |rates|) && i <= j <= |order| && forall v :: 0 <= v < |rates| ==> rates[v] >= 0.0
    ensures Cumulative(order, rates, i) <= Cumulative(order, rates, j)
  {
    if i == j {
    } else {
      CumulativeGrows(order, rates, i, j - 1);
    }
  }

  /** So the first draw links to a vertex for an interval of draws in proportion to its rate: from the
      share of the vertices before it to that share and its own. */
  lemma {:induction false} LinkedByRate(order: seq<nat>, rates: seq<real>, u: real, j: nat)
    requires IsOrder(order, rates) && Sum(rates) > 0.0 && u >= 0.0 && j < |order|
    requires forall v :: 0 <= v < |rates| ==> rates[v] >= 0.0
    ensures Indices(order, |rates|)
    ensures var before := Cumulative(order, rates, j);
      Links(order, rates, Sum(rates), [u]) == [order[j]] <==>
        before <= Product(u, Sum(rates)) < before + rates[order[j]]
  {
    var total := Sum(rates);
    assert Indices(order, |rates|);
    FirstLink(order, rates, total, u, j);
    LinkedIff(order, rates, total, [], u, j);
    assert Cumulative(order, rates, 0) == 0.0 <= Product(u, total) by { NonNegative(u, total); }
    hide Product, Links, IsOrder, Cumulative, Pick;
    if j > 0 { assert ShareAt(order, rates, j - 1) == Cumulative(order, rates, j); }
    forall i: nat | i < j ensures ShareAt(order, rates, i) <= Cumulative(order, rates, j) {
      CumulativeGrows(order, rates, i + 1, j);
    }
    ShareStep(order, rates, j);
  }

  lemma {:induction false} ShareStep(order: seq<nat>, rates: seq<real>, j: nat)
    requires Indices(order, |rates|) && j < |order|
    ensures ShareAt(order, rates, j) == Cumulative(order, rates, j) + rates[order[j]]
  {
  }

  /** The link of the first draw is the vertex picked. */
  lemma {:induction false} FirstLink(order: seq<nat>, rates: seq<real>, total: real, u: real, j: nat)
    requires IsOrder(order, rates) && j < |order|
    ensures Indices(order, |rates|)
    ensures Links(order, rates, total, [u]) == [order[j]] <==> Pick(order, rates, total, [], u, 0) == j
  {
    hide Pick, Cumulative;
    assert [u][..0] == [];
    var k := Pick(order, rates, total, [], u, 0);
    assert Links(order, rates, total, [u]) == if k < |order| then [order[k]] else [];
  }

  lemma {:induction false} LinksGrow(order: seq<nat>, rates: seq<real>, total: real, us: seq<real>, k: nat)
    requires Indices(order, |rates|) && k <= |us|
    ensures |Links(order, rates, total, us[..k])| <= |Links(order, rates, total, us)|
  {
    if k < |us| {
      LinksGrow(order, rates, total, us[..|us| - 1], k);
      assert us[..|us| - 1][..k] == us[..k];
    } else {
      assert us[..k] == us;
    }
  }

  /** The first draw always finds a vertex, if any vertex has a positive rate. */
  lemma {:induction false} SomeLink(order: seq<nat>, rates: seq<real>, us: seq<real>)
    requires IsOrder(order, rates) && Sum(rates) > 0.0 && us != [] && us[0] < 1.0
    ensures |Links(order, rates, Sum(rates), us)| >= 1
  {
    var total, n := Sum(rates), |order|;
    CumulativeIsSum(order, rates);
    assert n > 0;
    assert total / total == 1.0;
    assert Eligible(order, rates, total, [], us[0], n - 1);
    assert us[..1][..0] == [] && us[..1][0] == us[0];
    assert Links(order, rates, total, us[..1]) == Link(order, rates, total, [], us[0]);
    LinksGrow(order, rates, total, us, 1);
  }

  // ---- the growing graph -------------------------------------------------------------------

  /** Every edge leads from a later vertex to an earlier one, and there is only one. */
  ghost predicate Grown(g: Graph) {
    forall v: nat :: v < |g| ==> Distinct(g[v]) && Indices(g[v], v)
  }

  /** Every vertex but the first has an out-edge. */
  ghost predicate Rooted(g: Graph) {
    forall v: nat :: 0 < v < |g| ==> g[v] != []
  }

  /** The order in which the vertices were added ranks a grown graph, so it is acyclic. */
  lemma {:induction false} GrownIsAcyclic(g: Graph)
    requires Grown(g)
    ensures WellFormed(g) && Acyclic(g, seq(|g|, i => i))
  {
    forall u: nat, v: nat | u < |g| && v < |g| && IsEdge(g, u, v) ensures v < u {
      var k :| 0 <= k < |g[u]| && g[u][k] == v;
    }
    forall u: nat, k: nat | u < |g| && k < |g[u]| ensures g[u][k] < |g| {
      assert g[u][k] < u;
    }
  }

  /** The order of growth as ranks, with a bound on the in-degree. */
  function GrownShape(g: Graph, inDegree: nat): Shape {
    Shape(seq(|g|, i => i), inDegree)
  }

  /** No vertex has more in-neighbours than there are vertices. */
  lemma {:induction false} InDegreeBounded(g: Graph)
    ensures InDegreeAtMost(g, |g|)
  {
    forall v: nat | v < |g| ensures |InNeighbours(g, v)| <= |g| {
      OthersAreFew(g, v, EXTERNAL_EVENT, |g|);
    }
  }

  lemma {:induction false} OthersAreFew(g: Graph, v: int, except: int, k: nat)
    requires k <= |g|
    ensures |Others(g, v, except, k)| <= k
  {
    if k == 0 {
    } else {
      OthersAreFew(g, v, except, k - 1);
    }
  }

  /** In a grown network, once the external arrivals are off, the number of steps is bounded by the
      number of pending events, the number of vertices and the greatest in-degree. */
  lemma {:induction false} GrownDrains(c: Config, inDegree: nat, w: World, ws: seq<World>, acts: seq<Action>)
    requires RoutesOk(c, w, []) && Grown(c.graph) && c.graph != [] && InDegreeAtMost(c.graph, inDegree)
    requires IsFreeRun(c, ws, acts) && ws[0] == TurnOff(w)
    ensures Fits(c.graph, GrownShape(c.graph, inDegree))
    ensures |acts| <= |w.pending| * (2 + 2 * |c.graph| + |c.graph| * (inDegree + 1))
    ensures |acts| <= |w.pending| * (2 + 2 * |c.graph| + |c.graph| * (|c.graph| + 1))
    ensures forall e :: e in w.pending && IsToken(e) ==> |e.path| <= |c.graph|
  {
    hide RoutesOk, IsFreeRun, TurnOff;
    var n, shape := |c.graph|, GrownShape(c.graph, inDegree);
    GrownIsAcyclic(c.graph);
    assert RanksAtMost(shape, n - 1);
    DrainsWithin(c, shape, n - 1, w, ws, acts);
    BoundIs(|w.pending|, n, inDegree, shape);
    InDegreeBounded(c.graph);
    DrainsWithin(c, GrownShape(c.graph, n), n - 1, w, ws, acts);
    BoundIs(|w.pending|, n, n, GrownShape(c.graph, n));
    forall e | e in w.pending && IsToken(e) ensures |e.path| <= n {
      StackIsLow(c, shape, n - 1, w, e);
    }
  }

  lemma {:induction false} BoundIs(events: nat, n: nat, inDegree: nat, shape: Shape)
    requires n >= 1 && shape.inDegree == inDegree
    ensures Multiple(events, MostWeight(shape, n - 1)) == events * (2 + 2 * n + n * (inDegree + 1))
  {
  }

  /** What one growth step draws. `order` is what std::sort makes of the service rates, `us` the
      uniform variates, one for each attempted edge. */
  datatype Growth = Growth(order: seq<nat>, us: seq<real>, rate: real, rebalanced: seq<real>)

  const MAX_OUTDEGREE: nat := 0xFFFF_FFFF

  ghost predicate LegalEdges(edges: nat, vertices: nat, maxEdges: nat) {
    if maxEdges == MAX_OUTDEGREE then edges == vertices
    else 1 <= edges <= if maxEdges > vertices then vertices else maxEdges
  }

  ghost predicate LegalGrowth(d: Growth, rates: seq<real>, maxEdges: nat) {
    && IsOrder(d.order, rates) && LegalEdges(|d.us|, |rates|, maxEdges)
    && (forall i :: 0 <= i < |d.us| ==> 0.0 <= d.us[i] < 1.0)
    && d.rate >= 0.0
    && |d.rebalanced| == |rates| + 1 && (forall i :: 0 <= i < |d.rebalanced| ==> d.rebalanced[i] >= 0.0)
  }

  /** The rates at the start of step k. */
  function RatesAt(rates: seq<real>, draws: seq<Growth>, k: nat): seq<real>
    requires k <= |draws|
  {
    if k == 0 then rates else draws[k - 1].rebalanced
  }

  ghost predicate LegalAt(rates: seq<real>, draws: seq<Growth>, maxEdges: nat, k: nat)
    requires k < |draws|
  {
    LegalGrowth(draws[k], RatesAt(rates, draws, k), maxEdges)
  }

  ghost predicate LegalRun(rates: seq<real>, draws: seq<Growth>, maxEdges: nat) {
    forall k: nat :: k < |draws| ==> LegalAt(rates, draws, maxEdges, k)
  }

  /** Growth step k added the vertex and the links that its draws say. */
  ghost predicate LinkedAt(g: Graph, n0: nat, rates0: seq<real>, draws: seq<Growth>, k: nat)
    requires k < |draws|
  {
    var r := RatesAt(rates0, draws, k);
    n0 + k < |g| && Indices(draws[k].order, |r|) && g[n0 + k] == Links(draws[k].order, r, Sum(r), draws[k].us)
  }

  lemma {:induction false} StillLinked(g: Graph, g': Graph, n0: nat, rates0: seq<real>, draws: seq<Growth>, k: nat)
    requires k < |draws| && |g| == n0 + k && |g'| == |g| + 1 && g'[..|g|] == g
    requires forall i: nat :: i < k ==> LinkedAt(g, n0, rates0, draws, i)
    requires var r := RatesAt(rates0, draws, k);
      Indices(draws[k].order, |r|) && g'[|g|] == Links(draws[k].order, r, Sum(r), draws[k].us)
    ensures forall i: nat :: i < k + 1 ==> LinkedAt(g', n0, rates0, draws, i)
  {
    forall i: nat | i < k ensures LinkedAt(g', n0, rates0, draws, i) {
      assert LinkedAt(g, n0, rates0, draws, i);
      assert g'[n0 + i] == g'[..|g|][n0 + i];
    }
  }

  /** A graph grown from one vertex has exactly one vertex without out-edges, as long as some
      vertex has a positive service rate at each step. */
  lemma {:induction false} GrownIsRooted(g: Graph, rates0: seq<real>, draws: seq<Growth>, maxEdges: nat)
    requires LegalRun(rates0, draws, maxEdges) && |rates0| == 1 && |g| == |draws| + 1
    requires forall k: nat :: k < |draws| ==> LinkedAt(g, 1, rates0, draws, k)
    requires forall k: nat :: k < |draws| ==> Sum(RatesAt(rates0, draws, k)) > 0.0
    ensures Rooted(g)
  {
    forall v: nat | 0 < v < |g| ensures g[v] != [] {
      var k := v - 1;
      assert LinkedAt(g, 1, rates0, draws, k);
      assert LegalAt(rates0, draws, maxEdges, k);
      assert |RatesAt(rates0, draws, k)| > 0 by { RatesSize(rates0, draws, maxEdges, k); }
      assert draws[k].us[0] < 1.0;
      SomeLink(draws[k].order, RatesAt(rates0, draws, k), draws[k].us);
    }
  }

  lemma {:induction false} GrowthIndices(d: Growth, rates: seq<real>, maxEdges: nat)
    requires LegalGrowth(d, rates, maxEdges)
    ensures Indices(d.order, |rates|)
  {
  }

  lemma {:induction false} RatesSize(rates0: seq<real>, draws: seq<Growth>, maxEdges: nat, k: nat)
    requires LegalRun(rates0, draws, maxEdges) && |rates0| >= 1 && k <= |draws|
    ensures |RatesAt(rates0, draws, k)| == |rates0| + k
  {
    hide IsOrder, LegalEdges;
    if k == 0 {
    } else {
      RatesSize(rates0, draws, maxEdges, k - 1);
      assert LegalAt(rates0, draws, maxEdges, k - 1);
    }
  }

  /** In such a graph every job that has returned had reached the first vertex. */
  lemma {:induction false} RoutesReachTheRoot(c: Config, jobs: map<nat, Job>, id: nat)
    requires Rooted(c.graph) && HasReturned(c, jobs, id)
    ensures var r := jobs[id].visited; r != [] && r[|r| - 1] == 0
  {
    var r := jobs[id].visited;
    assert 0 <= r[|r| - 1] < |c.graph|;
  }

  class Evonet {
    var out: Graph
    var rates: seq<real>

    ghost predicate Valid()
      reads this
    {
      |rates| == |out| > 0 && Grown(out)
    }

    /** createBBVGraph's first vertex. */
    constructor (rate: real)
      ensures Valid() && out == [[]] && rates == [rate]
    {
      out := [[]];
      rates := [rate];
    }

    method SumRates() returns (total: real)
      ensures total == Sum(rates)
    {
      total := 0.0;
      for i := 0 to |rates|
        invariant total == Sum(rates[..i])
      {
        assert rates[..i + 1] == rates[..i] + [rates[i]];
        SumSnoc(rates[..i], rates[i]);
        total := total + rates[i];
      }
      assert rates[..|rates|] == rates;
    }

    /** One attempt to link the newest vertex. */
    method TryLink(order: seq<nat>, total: real, u: real)
      requires |out| > 1 && |rates| == |out| && Indices(order, |out| - 1)
      modifies this`out
      ensures var v := |old(out)| - 1;
        out == old(out)[v := Link(order, rates, total, old(out[v]), u)]
    {
      var v := |out| - 1;
      var temp := 0.0;
      for j := 0 to |order|
        invariant out == old(out) && temp == Cumulative(order, rates, j)
        invariant forall i: nat :: i < j ==> !Eligible(order, rates, total, out[v], u, i)
      {
        temp := temp + rates[order[j]];
        if Below(u, temp, total) {
          if order[j] !in out[v] {
            assert Eligible(order, rates, total, out[v], u, j);
            out := out[v := out[v] + [order[j]]];
            return;
          }
        }
      }
      assert out == out[v := out[v]];
    }

    /** One step of growth: a new vertex and its links to earlier ones. */
    method Grow(d: Growth, ghost maxEdges: nat)
      requires Valid() && LegalGrowth(d, rates, maxEdges)
      modifies this
      ensures Valid() && rates == d.rebalanced
      ensures out == old(out) + [Links(d.order, old(rates), Sum(old(rates)), d.us)]
    {
      var total := SumRates();
      ghost var before, rates0 := out, rates;
      out := out + [[]];
      rates := rates + [d.rate];
      for e := 0 to |d.us|
        invariant out == before + [Links(d.order, rates0, total, d.us[..e])] && rates == rates0 + [d.rate]
      {
        TryLink(d.order, total, d.us[e]);
        assert d.us[..e + 1][..e] == d.us[..e];
        SameLink(d.order, rates0, rates, total, Links(d.order, rates0, total, d.us[..e]), d.us[e]);
      }
      assert d.us[..|d.us|] == d.us;
      LinksAreSimple(d.order, rates0, total, d.us);
      rates := d.rebalanced;
    }

    /** The growth loop: earlier vertices keep their edges; where the rates are not all zero
        every new vertex gets an edge. */
    method Advance(draws: seq<Growth>, maxEdges: nat)
      requires Valid() && LegalRun(rates, draws, maxEdges)
      modifies this
      ensures Valid() && |out| == old(|out|) + |draws|
      ensures forall v :: 0 <= v < old(|out|) ==> out[v] == old(out[v])
      ensures forall k: nat :: k < |draws| ==> LinkedAt(out, old(|out|), old(rates), draws, k)
    {
      hide Valid, LinkedAt, LegalGrowth;
      ghost var n0, rates0 := |out|, rates;
      for k := 0 to |draws|
        invariant Valid() && |out| == n0 + k && rates == RatesAt(rates0, draws, k)
        invariant forall v :: 0 <= v < n0 ==> out[v] == old(out[v])
        invariant forall i: nat :: i < k ==> LinkedAt(out, n0, rates0, draws, i)
      {
        ghost var before := out;
        assert LegalAt(rates0, draws, maxEdges, k);
        GrowthIndices(draws[k], rates, maxEdges);
        Grow(draws[k], maxEdges);
        StillLinked(before, out, n0, rates0, draws, k);
      }
    }
  }

  /** A pick only looks at the rates of the vertices in the order. */
  lemma {:induction false} SameLink(order: seq<nat>, rates: seq<real>, rates': seq<real>, total: real,
      linked: seq<nat>, u: real)
    requires Indices(order, |rates|) && |rates'| == |rates| + 1 && rates'[..|rates|] == rates
    ensures Link(order, rates, total, linked, u) == Link(order, rates', total, linked, u)
  {
    forall j: nat | j < |order|
      ensures Eligible(order, rates, total, linked, u, j) <==> Eligible(order, rates', total, linked, u, j)
    {
      CumulativePrefix(order, order, rates, rates', j + 1);
    }
    SamePick(order, rates, rates', total, linked, u, 0);
  }

  lemma {:induction false} SamePick(order: seq<nat>, rates: seq<real>, rates': seq<real>, total: real,
      linked: seq<nat>, u: real, j: nat)
    requires Indices(order, |rates|) && |rates| <= |rates'| && Indices(order, |rates'|) && j <= |order|
    requires forall j: nat :: j < |order| ==>
      (Eligible(order, rates, total, linked, u, j) <==> Eligible(order, rates', total, linked, u, j))
    ensures Pick(order, rates, total, linked, u, j) == Pick(order, rates', total, linked, u, j)
    decreases |order| - j
  {
    if j == |order| {
    } else {
      SamePick(order, rates, rates', total, linked, u, j + 1);
    }
  }
}
