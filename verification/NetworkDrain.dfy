/** Without external arrivals the network drains: every step uses up weight, where an event
    weighs as many steps as it can still cause. */
module NetworkDrain {
  import opened Entries
  import opened Servers
  import opened Network
  import opened NetworkRoutes
  import opened NetworkServers
  import opened NetworkRuns

  /** Edges lead to vertices of smaller rank, so ranks bound the length of paths. */
  ghost predicate Acyclic(g: Graph, rank: seq<nat>) {
    |rank| == |g| && forall u: nat, v: nat :: u < |g| && v < |g| && IsEdge(g, u, v) ==> rank[v] < rank[u]
  }

  function InNeighbours(g: Graph, v: nat): seq<nat> { Others(g, v, EXTERNAL_EVENT, |g|) }

  ghost predicate InDegreeAtMost(g: Graph, d: nat) {
    forall v: nat :: v < |g| ==> |InNeighbours(g, v)| <= d
  }

  /** Longest path and greatest in-degree of a graph. */
  datatype Shape = Shape(rank: seq<nat>, inDegree: nat)

  ghost predicate Fits(g: Graph, shape: Shape) {
    Acyclic(g, shape.rank) && InDegreeAtMost(g, shape.inDegree)
  }

  function Rank(shape: Shape, v: int): nat { if 0 <= v < |shape.rank| then shape.rank[v] else 0 }

  /** An acknowledgement with a stack of height `s`: each vertex on the way back is one event
      and may tell each of its in-neighbours. */
  function AckWeight(shape: Shape, s: nat): nat { s * (shape.inDegree + 1) + 1 }

  /** A departure: two events for each vertex still ahead, then the way back. */
  function DepartureWeight(shape: Shape, v: int, s: nat): nat {
    2 + 2 * Rank(shape, v) + AckWeight(shape, s + Rank(shape, v))
  }

  function Weight(shape: Shape, e: Entry): nat {
    match e.kind
    case LastArrival => 0
    case Arrival => 1 + DepartureWeight(shape, e.destination, |e.path| + 1)
    case Departure => DepartureWeight(shape, e.destination, |e.path|)
    case Ack => AckWeight(shape, |e.path|)
    case Ack1Hop => 1
    case Leave => 1
    case GenerateArrivals => 0
    case Administrative => 1
  }

  function WeightOf(shape: Shape): Entry -> nat { (e: Entry) => Weight(shape, e) }

  lemma {:induction false} AckWeightStep(shape: Shape, s: nat)
    ensures AckWeight(shape, s + 1) == AckWeight(shape, s) + shape.inDegree + 1
    ensures AckWeight(shape, 0) == 1
  {
  }

  lemma {:induction false} AckWeightMonotone(shape: Shape, s: nat, t: nat)
    requires s <= t
    ensures AckWeight(shape, s) <= AckWeight(shape, t)
    decreases t
  {
    hide AckWeight;
    if s == t {
    } else {
      AckWeightMonotone(shape, s, t - 1);
      AckWeightStep(shape, t - 1);
    }
  }

  lemma {:induction false} FewerOthers(g: Graph, v: int, except: int, k: nat)
    requires k <= |g|
    ensures |Others(g, v, except, k)| <= |Others(g, v, EXTERNAL_EVENT, k)|
  {
    if k == 0 {
    } else {
      FewerOthers(g, v, except, k - 1);
    }
  }

  lemma {:induction false} HopsWeight(shape: Shape, e: Entry, targets: seq<nat>, uid: nat)
    requires e.path != [] && e.arrivals != []
    ensures Total(OneHops(e, targets, uid), WeightOf(shape)) == |targets|
  {
    if targets == [] {
    } else {
      var n := |targets| - 1;
      HopsWeight(shape, e, targets[..n], uid);
      var h := e.PopHistory().Copy(uid + n).Acknowledge(e.destination, targets[n], Ack1Hop);
      TotalAppend(OneHops(e, targets[..n], uid), [h], WeightOf(shape));
      TotalOne(h, WeightOf(shape));
    }
  }

  // ---- each kind of step -------------------------------------------------------------------

  lemma {:induction false} AckUses(c: Config, shape: Shape, e: Entry, uid: nat)
    requires Fits(c.graph, shape) && e.kind.Ack? && Handled(c, e)
    ensures Weight(shape, Backward(e, uid)) + |Audience(c, e)| < Weight(shape, e)
  {
    hide AckWeight;
    var k := |e.path|;
    AckWeightStep(shape, k - 1);
    AckWeightMonotone(shape, 0, k - 1);
    AckWeightStep(shape, 0);
    FewerOthers(c.graph, e.destination, e.path[k - 1], |c.graph|);
    assert |InNeighbours(c.graph, e.destination)| <= shape.inDegree;
  }

  /** Moving on to an out-neighbour lengthens the stack by less than it shortens the path. */
  lemma {:induction false} OnwardUses(c: Config, shape: Shape, w: World, j: Job, e: Entry, choice: int)
    requires Sized(c, w) && WellFormed(c.graph) && Fits(c.graph, shape)
    requires forall v: nat :: v < |c.graph| ==> ActionOk(c, v, w.nextAction[v])
    requires e.kind.Departure? && TokenOk(c, j, e) && 0 <= e.destination < |c.graph|
    requires c.graph[e.destination] != [] ==> IsEdge(c.graph, e.destination, choice)
    ensures Weight(shape, Onward(c, w, e, choice)) < Weight(shape, e)
  {
    hide AckWeight;
    OnwardForward(c, w, j, e, choice);
    var v, o, s := e.destination, Onward(c, w, e, choice), |e.path|;
    if c.graph[v] != [] {
      assert IsEdge(c.graph, o.origin, o.destination) && o.origin == v;
      assert Rank(shape, o.destination) < Rank(shape, v);
      AckWeightMonotone(shape, s + 1 + Rank(shape, o.destination), s + Rank(shape, v));
    } else {
      AckWeightMonotone(shape, s, s + Rank(shape, v));
    }
  }

  /** The event that a step hands to its handlers. */
  function Taken(w: World, a: Action): Entry
    requires a.index < |w.pending|
  {
    Corrected(w.pending[a.index], w.now)
  }

  lemma {:induction false} TakenIsOk(c: Config, shape: Shape, w: World, a: Action)
    requires RoutesOk(c, w, []) && a.index < |w.pending|
    ensures Sized(c, w) && Handled(c, Taken(w, a)) && EventOk(c, w.jobs, Taken(w, a))
    ensures Weight(shape, Taken(w, a)) == Weight(shape, w.pending[a.index])
  {
    EventsAreHandled(c, w, w.pending[a.index]);
    assert EventOk(c, w.jobs, w.pending[a.index]);
    CorrectionKeeps(c, w.jobs, w.pending[a.index], w.now);
  }

  /** The pushed events weigh less than the event that pushes them. */
  lemma {:induction false} PushedWeighsLess(c: Config, shape: Shape, w: World, a: Action)
    requires RoutesOk(c, w, []) && Possible(c, w, a) && Fits(c.graph, shape) && Internal(Taken(w, a))
    ensures var e := Taken(w, a);
      Sized(c, w) && Handled(c, e) && Total(Pushed(c, w, e, a.draws), WeightOf(shape)) < Weight(shape, e)
  {
    hide AckWeight, RoutesOk, OneHops, Audience, Backward, Onward, DepartureOf, Fits, Legal, EventOk, Taken;
    var e, f := Taken(w, a), WeightOf(shape);
    TakenIsOk(c, shape, w, a);
    match e.kind
    case Arrival =>
      var d := DepartureOf(w.servers[e.destination].vertex, e, a.draws.service, w.uid);
      DepartureShape(w.servers[e.destination].vertex, e, a.draws.service, w.uid);
      TotalOne(d, f);
    case Departure =>
      TakenOnwardUses(c, shape, w, a);
      TotalOne(Onward(c, w, e, a.draws.choice), f);
    case Ack =>
      var b, hops := Backward(e, w.uid), OneHops(e, Audience(c, e), w.uid + 1);
      AckUses(c, shape, e, w.uid);
      HopsWeight(shape, e, Audience(c, e), w.uid + 1);
      TotalAppend([b], hops, f);
      TotalOne(b, f);
    case _ =>
  }

  lemma {:induction false} DepartureShape(x: Vertex, e: Entry, service: real, uid: nat)
    ensures var d := DepartureOf(x, e, service, uid);
      d.kind.Departure? && d.destination == e.destination && |d.path| == |e.path| + 1
  {
  }

  lemma {:induction false} TakenOnwardUses(c: Config, shape: Shape, w: World, a: Action)
    requires RoutesOk(c, w, []) && Possible(c, w, a) && Fits(c.graph, shape) && Taken(w, a).kind.Departure?
    ensures var e := Taken(w, a);
      && Sized(c, w) && Handled(c, e)
      && Weight(shape, Onward(c, w, e, a.draws.choice)) < Weight(shape, e)
  {
    hide Fits, TokenOk, Onward, Weight, OneToken, HasReturned, ActionOk;
    TakenIsOk(c, shape, w, a);
    var e := Taken(w, a);
    OnwardUses(c, shape, w, w.jobs[e.id], e, a.draws.choice);
  }

  /** Every step but those of external arrivals uses up weight. */
  lemma {:induction false} InternalStepUses(c: Config, shape: Shape, w: World, a: Action)
    requires RoutesOk(c, w, []) && Possible(c, w, a) && Fits(c.graph, shape)
    requires Internal(w.pending[a.index])
    ensures Sized(c, w) && Handled(c, w.pending[a.index])
    ensures Total(Step(c, w, a).pending, WeightOf(shape)) < Total(w.pending, WeightOf(shape))
  {
    hide RoutesOk, Step, Weight, Pushed, EventOk;
    var f := WeightOf(shape);
    TakenIsOk(c, shape, w, a);
    StepIsDefined(c, w, a);
    StepPending(c, w, a);
    PushedWeighsLess(c, shape, w, a);
    TotalWithout(w.pending, a.index, f);
    TotalAppend(Without(w.pending, a.index), Pushed(c, w, Taken(w, a), a.draws), f);
  }

  /** An external arrival brings at most the weight of a departure with one entry of history. */
  lemma {:induction false} ExternalStepAdds(c: Config, shape: Shape, w: World, a: Action, most: nat)
    requires RoutesOk(c, w, []) && Possible(c, w, a)
    requires !Internal(w.pending[a.index])
    requires forall v: nat :: v < |c.graph| ==> DepartureWeight(shape, v, 1) <= most
    ensures Sized(c, w) && Handled(c, w.pending[a.index])
    ensures Total(Step(c, w, a).pending, WeightOf(shape)) <= Total(w.pending, WeightOf(shape)) + most
  {
    hide RoutesOk, Step, DepartureWeight, DepartureOf, AddExternal, AddExternals;
    var e, f, d := Taken(w, a), WeightOf(shape), a.draws;
    StepIsDefined(c, w, a);
    StepPending(c, w, a);
    TotalWithout(w.pending, a.index, f);
    var w1 := w.(pending := Without(w.pending, a.index), now := e.arrival);
    AddExternalsWeight(shape, w1, d.gaps);
    if e.kind.LastArrival? {
      AddExternalWeight(shape, w1, d.gaps[e.destination], e.destination);
      var x := DepartureOf(w.servers[e.destination].vertex, e, d.service, w.uid + 1);
      HeldHistory(c, w, w.pending[a.index]);
      DepartureShape(w.servers[e.destination].vertex, e, d.service, w.uid + 1);
      TotalOne(x, f);
      TotalAppend(AddExternal(w1, d.gaps[e.destination], e.destination).pending, [x], f);
    } else {
      TotalAppend(AddExternals(w1, d.gaps).pending, [], f);
    }
  }

  lemma {:induction false} HeldHistory(c: Config, w: World, e: Entry)
    requires RoutesOk(c, w, []) && e in w.pending && e.kind.LastArrival?
    ensures e.path == []
  {
    assert EventOk(c, w.jobs, e);
  }

  lemma {:induction false} AddExternalWeight(shape: Shape, w: World, gap: real, v: nat)
    ensures Total(AddExternal(w, gap, v).pending, WeightOf(shape)) == Total(w.pending, WeightOf(shape))
  {
    var x := External(w.uid, w.now, gap, v);
    TotalAppend(w.pending, [x], WeightOf(shape));
    TotalOne(x, WeightOf(shape));
  }

  lemma {:induction false} AddExternalsWeight(shape: Shape, w: World, gaps: seq<real>)
    ensures Total(AddExternals(w, gaps).pending, WeightOf(shape)) == Total(w.pending, WeightOf(shape))
  {
    if gaps == [] {
    } else {
      AddExternalsWeight(shape, w, gaps[..|gaps| - 1]);
      AddExternalWeight(shape, AddExternals(w, gaps[..|gaps| - 1]), gaps[|gaps| - 1], |gaps| - 1);
    }
  }

  // ---- whole runs --------------------------------------------------------------------------

  /** How many of a run's steps handle external arrivals. */
  ghost function ExternalSteps(ws: seq<World>, acts: seq<Action>, n: nat): nat
    requires n <= |acts| && |ws| == |acts| + 1
  {
    if n == 0 then 0
    else
      var i := acts[n - 1].index;
      ExternalSteps(ws, acts, n - 1)
        + if i < |ws[n - 1].pending| && !Internal(ws[n - 1].pending[i]) then 1 else 0
  }

  function Multiple(a: nat, b: nat): nat { a * b }

  lemma {:induction false} MultipleStep(a: nat, b: nat)
    ensures Multiple(a + 1, b) == Multiple(a, b) + b && Multiple(0, b) == 0
  {
  }

  /** In every run the number of internal steps is bounded by the weight of what was pending
      and the weight that its external arrivals brought. */
  lemma {:induction false} StepsAreBounded(
    c: Config, shape: Shape, ws: seq<World>, acts: seq<Action>, most: nat, n: nat)
    requires IsFreeRun(c, ws, acts) && RoutesOk(c, ws[0], []) && Fits(c.graph, shape) && n <= |acts|
    requires forall v: nat :: v < |c.graph| ==> DepartureWeight(shape, v, 1) <= most
    ensures RoutesOk(c, ws[n], []) && ExternalSteps(ws, acts, n) <= n
    ensures n - ExternalSteps(ws, acts, n) + Total(ws[n].pending, WeightOf(shape))
      <= Total(ws[0].pending, WeightOf(shape)) + Multiple(ExternalSteps(ws, acts, n), most)
  {
    hide RoutesOk, Step, DepartureWeight, Multiple, Fits;
    if n == 0 {
      MultipleStep(0, most);
    } else {
      StepsAreBounded(c, shape, ws, acts, most, n - 1);
      var w, a := ws[n - 1], acts[n - 1];
      assert StepsTo(c, w, a, ws[n - 1 + 1]);
      StepIsDefined(c, w, a);
      MultipleStep(ExternalSteps(ws, acts, n - 1), most);
      if Internal(w.pending[a.index]) {
        InternalStepUses(c, shape, w, a);
      } else {
        ExternalStepAdds(c, shape, w, a, most);
      }
    }
  }

  /** With no external arrivals pending there will be none, and the run is no longer than the
      weight of what is pending. */
  lemma {:induction false} Drains(c: Config, shape: Shape, ws: seq<World>, acts: seq<Action>, n: nat)
    requires IsFreeRun(c, ws, acts) && RoutesOk(c, ws[0], []) && Fits(c.graph, shape) && n <= |acts|
    requires forall e :: e in ws[0].pending ==> Internal(e)
    ensures RoutesOk(c, ws[n], []) && forall e :: e in ws[n].pending ==> Internal(e)
    ensures n + Total(ws[n].pending, WeightOf(shape)) <= Total(ws[0].pending, WeightOf(shape))
  {
    hide RoutesOk, Step, Fits, Pushed;
    if n == 0 {
    } else {
      Drains(c, shape, ws, acts, n - 1);
      var w, a := ws[n - 1], acts[n - 1];
      assert StepsTo(c, w, a, ws[n - 1 + 1]);
      StepIsDefined(c, w, a);
      InternalStepUses(c, shape, w, a);
      TakenIsOk(c, shape, w, a);
      PushedInternal(c, w, Taken(w, a), a.draws);
      StepPending(c, w, a);
    }
  }

  /** As long as something is pending, a step is possible. */
  lemma {:induction false} CanStep(c: Config, w: World) returns (a: Action)
    requires w.pending != []
    ensures Enabled(c, w, a)
  {
    var i := Earliest(w.pending);
    var v := w.pending[i].destination;
    var gaps := seq(|c.graph|, _ => 0.0);
    var choice := if 0 <= v < |c.graph| && c.graph[v] != [] then c.graph[v][0] else 0;
    a := Action(i, Draws(0.0, gaps, choice));
  }

  lemma {:induction false} Earliest(p: seq<Entry>) returns (i: nat)
    requires p != []
    ensures Minimal(p, i)
  {
    if |p| == 1 {
      i := 0;
    } else {
      var j := Earliest(p[..|p| - 1]);
      assert forall k :: 0 <= k < |p| - 1 ==> p[k] == p[..|p| - 1][k];
      i := if p[j].arrival <= p[|p| - 1].arrival then j else |p| - 1;
    }
  }

  /** What any event of a run weighs at most, with paths of at most `longest` edges. */
  function MostWeight(shape: Shape, longest: nat): nat {
    3 + 2 * longest + AckWeight(shape, longest + 1)
  }

  ghost predicate RanksAtMost(shape: Shape, longest: nat) {
    forall v :: 0 <= v < |shape.rank| ==> shape.rank[v] <= longest
  }

  /** Along a walk the ranks fall by one at least with every edge. */
  lemma {:induction false} WalkDescends(c: Config, shape: Shape, longest: nat, j: Job, k: nat)
    requires Fits(c.graph, shape) && RanksAtMost(shape, longest) && Walk(c, j) && k < |j.visited|
    ensures Rank(shape, j.visited[k]) + k <= longest
  {
    if k == 0 {
    } else {
      var l := k - 1;
      WalkDescends(c, shape, longest, j, l);
      assert IsEdge(c.graph, j.visited[l], j.visited[k]);
    }
  }

  /** No stack is higher than the longest path plus one. */
  lemma {:induction false} StackIsLow(c: Config, shape: Shape, longest: nat, w: World, e: Entry)
    requires RoutesOk(c, w, []) && Fits(c.graph, shape) && RanksAtMost(shape, longest)
    requires e in w.pending && IsToken(e)
    ensures |e.path| <= longest + 1
  {
    hide ServersOk, OneToken, HasReturned, Fits;
    assert EventOk(c, w.jobs, e);
    var j := w.jobs[e.id];
    if j.visited != [] { WalkDescends(c, shape, longest, j, |j.visited| - 1); }
  }

  lemma {:induction false} WeightAtMost(c: Config, shape: Shape, longest: nat, w: World, e: Entry)
    requires RoutesOk(c, w, []) && Fits(c.graph, shape) && RanksAtMost(shape, longest) && e in w.pending
    ensures Weight(shape, e) <= MostWeight(shape, longest)
  {
    hide AckWeight, ServersOk, OneToken, HasReturned, Fits;
    assert EventOk(c, w.jobs, e);
    AckWeightMonotone(shape, 0, longest + 1);
    AckWeightStep(shape, 0);
    if e.kind.Arrival? || e.kind.Departure? {
      var j := w.jobs[e.id];
      WalkDescends(c, shape, longest, j, |j.visited| - 1);
      if e.kind.Arrival? { EdgeDescends(c.graph, shape, e.origin, e.destination); }
      var height := if e.kind.Arrival? then |e.path| + 1 else |e.path|;
      AckWeightMonotone(shape, height + Rank(shape, e.destination), longest + 1);
    } else if e.kind.Ack? {
      StackIsLow(c, shape, longest, w, e);
      AckWeightMonotone(shape, |e.path|, longest + 1);
    }
  }

  lemma {:induction false} EdgeDescends(g: Graph, shape: Shape, u: int, v: int)
    requires Fits(g, shape) && IsEdge(g, u, v) && v < |g|
    ensures Rank(shape, v) < Rank(shape, u)
  {
  }

  /** The weight of what is pending, from the number of events, the longest path and the greatest
      in-degree. */
  lemma {:induction false} TotalWeightAtMost(c: Config, shape: Shape, longest: nat, w: World, p: seq<Entry>)
    requires RoutesOk(c, w, []) && Fits(c.graph, shape) && RanksAtMost(shape, longest)
    requires forall e :: e in p ==> e in w.pending
    ensures Total(p, WeightOf(shape)) <= Multiple(|p|, MostWeight(shape, longest))
  {
    hide Multiple, Weight, MostWeight, RoutesOk, Fits, RanksAtMost;
    if p == [] {
      MultipleStep(0, MostWeight(shape, longest));
    } else {
      var n := |p| - 1;
      TotalWeightAtMost(c, shape, longest, w, p[..n]);
      WeightAtMost(c, shape, longest, w, p[n]);
      MultipleStep(n, MostWeight(shape, longest));
    }
  }

  // ---- turning the external arrivals off -----------------------------------------------------

  /** The pending events without the external arrivals. */
  function Internals(p: seq<Entry>): seq<Entry> {
    if p == [] then []
    else if Internal(p[|p| - 1]) then Internals(p[..|p| - 1]) + [p[|p| - 1]]
    else Internals(p[..|p| - 1])
  }

  function ArrivalOf(id: nat): Entry -> nat {
    (e: Entry) => if e.kind.LastArrival? && e.id == id then 1 else 0
  }

  /** A world with external generation off: jobs that have not arrived yet are forgotten. */
  function TurnOff(w: World): World {
    w.(pending := Internals(w.pending),
       jobs := map id | id in w.jobs && Total(w.pending, ArrivalOf(id)) == 0 :: w.jobs[id])
  }

  lemma {:induction false} InternalsMember(p: seq<Entry>, e: Entry)
    ensures e in Internals(p) <==> e in p && Internal(e)
  {
    if p == [] {
    } else {
      InternalsMember(p[..|p| - 1], e);
      assert p == p[..|p| - 1] + [p[|p| - 1]];
    }
  }

  lemma {:induction false} InternalsTotal(p: seq<Entry>, id: nat)
    ensures Total(p, TokenOf(id)) == Total(Internals(p), TokenOf(id)) + Total(p, ArrivalOf(id))
  {
    if p == [] {
    } else {
      var x := p[|p| - 1];
      InternalsTotal(p[..|p| - 1], id);
      if Internal(x) {
        TotalAppend(Internals(p[..|p| - 1]), [x], TokenOf(id));
        TotalOne(x, TokenOf(id));
      }
    }
  }

  lemma {:induction false} ExternalTimes(e: Entry, v: nat)
    ensures !Internal(e) ==> TimeOf(e, v) == multiset{}
  {
  }

  lemma {:induction false} InternalsTimes(p: seq<Entry>, v: nat)
    ensures DepartureTimes(Internals(p), v) == DepartureTimes(p, v)
  {
    hide TimeOf;
    if p == [] {
    } else {
      var x := p[|p| - 1];
      ExternalTimes(x, v);
      InternalsTimes(p[..|p| - 1], v);
      if Internal(x) { TimesPush(Internals(p[..|p| - 1]), x, v); }
    }
  }

  lemma {:induction false} TurnOffServers(c: Config, w: World)
    requires ServersOk(c, w)
    ensures ServersOk(c, TurnOff(w))
  {
    hide Consistent;
    var p := Internals(w.pending);
    forall j | 0 <= j < |p| ensures w.now <= p[j].arrival {
      InternalsMember(w.pending, p[j]);
    }
    forall v: nat | v < |c.graph| ensures ServerOk(w.servers[v], v, p, w.now) {
      assert ServerOk(w.servers[v], v, w.pending, w.now);
      InternalsTimes(w.pending, v);
    }
  }

  /** A pending event other than an external arrival keeps its job. */
  lemma {:induction false} StillKnown(c: Config, w: World, e: Entry)
    requires RoutesOk(c, w, []) && e in w.pending && IsToken(e) && Internal(e)
    ensures e.id in TurnOff(w).jobs
  {
    assert EventOk(c, w.jobs, e) && OneToken(w, [], e.id);
    InternalsTotal(w.pending, e.id);
    InternalsMember(w.pending, e);
    var p := Internals(w.pending);
    var i :| 0 <= i < |p| && p[i] == e;
    TotalAtLeast(p, i, TokenOf(e.id));
  }

  /** So does a 1-hop copy: its job has arrived somewhere. */
  lemma {:induction false} ArrivedStillKnown(c: Config, w: World, id: nat)
    requires RoutesOk(c, w, []) && id in w.jobs && w.jobs[id].visited != []
    ensures id in TurnOff(w).jobs
  {
    if Total(w.pending, ArrivalOf(id)) > 0 {
      var i := PositiveTotal(w.pending, ArrivalOf(id));
      FirstArrivalIsNew(c, w, w.pending[i]);
    }
  }

  lemma {:induction false} FirstArrivalIsNew(c: Config, w: World, e: Entry)
    requires RoutesOk(c, w, []) && e in w.pending && e.kind.LastArrival?
    ensures e.id in w.jobs && w.jobs[e.id].visited == []
  {
    assert EventOk(c, w.jobs, e);
  }

  lemma {:induction false} PositiveTotal(p: seq<Entry>, f: Entry -> nat) returns (i: nat)
    requires Total(p, f) > 0
    ensures i < |p| && f(p[i]) > 0
  {
    var n := |p| - 1;
    if f(p[n]) > 0 { i := n; } else { i := PositiveTotal(p[..n], f); }
  }

  /** Turning the arrivals off in a reachable world leaves a world in order. */
  lemma {:induction false} TurnOffKeeps(c: Config, w: World)
    requires RoutesOk(c, w, [])
    ensures RoutesOk(c, TurnOff(w), [])
    ensures ServersOk(c, w) ==> ServersOk(c, TurnOff(w))
    ensures forall e :: e in TurnOff(w).pending ==> Internal(e)
  {
    hide ServersOk, TokenOk, HopOk, Ended, ActionOk;
    var w' := TurnOff(w);
    if ServersOk(c, w) { TurnOffServers(c, w); }
    forall e | e in w'.pending ensures e in w.pending && Internal(e) && EventOk(c, w'.jobs, e) {
      InternalsMember(w.pending, e);
      assert EventOk(c, w.jobs, e);
      if IsToken(e) { StillKnown(c, w, e); }
      if e.kind.Ack1Hop? { ArrivedStillKnown(c, w, e.id); }
    }
    forall id: nat ensures OneToken(w', [], id) {
      assert OneToken(w, [], id);
      InternalsTotal(w.pending, id);
    }
    forall id | id in w'.left ensures HasReturned(c, w'.jobs, id) {
      assert HasReturned(c, w.jobs, id);
      LeftArrived(c, w.jobs, id);
      ArrivedStillKnown(c, w, id);
    }
  }

  lemma {:induction false} LeftArrived(c: Config, jobs: map<nat, Job>, id: nat)
    requires HasReturned(c, jobs, id)
    ensures jobs[id].visited != []
  {
  }

  /** From any reachable world: with the external arrivals off, no run is longer than the weight
      of the pending events, a run that has not emptied the queue can go on, and when the queue
      is empty every job has returned along its route and left. */
  lemma {:induction false} DrainsOnceTurnedOff(
    c: Config, shape: Shape, w: World, ws: seq<World>, acts: seq<Action>)
    returns (next: Action)
    requires RoutesOk(c, w, []) && Fits(c.graph, shape)
    requires IsFreeRun(c, ws, acts) && ws[0] == TurnOff(w)
    ensures |acts| <= Total(TurnOff(w).pending, WeightOf(shape))
    ensures ws[|acts|].pending != [] ==> Enabled(c, ws[|acts|], next)
    ensures ws[|acts|].pending == [] ==>
      forall id :: id in ws[|acts|].jobs ==> id in ws[|acts|].left && HasReturned(c, ws[|acts|].jobs, id)
  {
    hide RoutesOk, Enabled, HasReturned, Fits;
    TurnOffKeeps(c, w);
    Drains(c, shape, ws, acts, |acts|);
    var last := ws[|acts|];
    if last.pending != [] {
      next := CanStep(c, last);
    } else {
      next := Action(0, Draws(0.0, [], 0));
      forall id | id in last.jobs ensures id in last.left && HasReturned(c, last.jobs, id) {
        DrainedMeansLeft(c, last, id);
      }
    }
  }

  lemma {:induction false} InternalsAreFewer(p: seq<Entry>)
    ensures |Internals(p)| <= |p|
  {
    if p == [] {
    } else {
      InternalsAreFewer(p[..|p| - 1]);
    }
  }

  /** And no run is longer than the number of pending events times what one event can cause. */
  lemma {:induction false} DrainsWithin(
    c: Config, shape: Shape, longest: nat, w: World, ws: seq<World>, acts: seq<Action>)
    requires RoutesOk(c, w, []) && Fits(c.graph, shape) && RanksAtMost(shape, longest)
    requires IsFreeRun(c, ws, acts) && ws[0] == TurnOff(w)
    ensures |acts| <= Multiple(|w.pending|, MostWeight(shape, longest))
  {
    hide RoutesOk, Fits, RanksAtMost, Multiple, MostWeight;
    var p := TurnOff(w).pending;
    TurnOffKeeps(c, w);
    TotalWeightAtMost(c, shape, longest, TurnOff(w), p);
    var next := DrainsOnceTurnedOff(c, shape, w, ws, acts);
    InternalsAreFewer(w.pending);
    MultipleMonotone(|p|, |w.pending|, MostWeight(shape, longest));
  }

  lemma {:induction false} MultipleMonotone(a: nat, b: nat, k: nat)
    requires a <= b
    ensures Multiple(a, k) <= Multiple(b, k)
  {
    assert (b - a) * k >= 0;
  }
}
