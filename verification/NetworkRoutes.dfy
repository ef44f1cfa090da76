/** Routes in the network: every job is one token, its history stacks hold the way back, and its
    acknowledgements retrace that way to the end. */
module NetworkRoutes {
  import opened Entries
  import opened Servers
  import opened Network

  function Reverse(s: seq<int>): seq<int> {
    if s == [] then [] else Reverse(s[1..]) + [s[0]]
  }

  lemma {:induction false} ReverseAt(s: seq<int>, k: nat)
    requires k < |s|
    ensures |Reverse(s)| == |s| && Reverse(s)[k] == s[|s| - 1 - k]
  {
    if |s| <= 1 {
    } else {
      ReverseAt(s[1..], if k < |s| - 1 then k else 0);
    }
  }

  /** The origins of a job's arrivals, in order. */
  function Trail(j: Job): seq<int> { [EXTERNAL_EVENT] + j.visited }

  /** A job's log is a walk along edges. */
  ghost predicate Walk(c: Config, j: Job) {
    && |j.times| == |j.visited|
    && (forall k: nat :: k < |j.visited| ==> 0 <= j.visited[k] < |c.graph|)
    && (forall k: nat, k': nat :: k' == k + 1 < |j.visited| ==> IsEdge(c.graph, j.visited[k], j.visited[k']))
  }

  /** The walk has ended at a vertex without out-neighbours. */
  ghost predicate Ended(c: Config, j: Job) {
    && Walk(c, j) && j.visited != []
    && c.graph[j.visited[|j.visited| - 1]] == []
  }

  /** The history stacks hold the origins and times of the first arrivals of the walk. */
  ghost predicate History(j: Job, e: Entry) {
    && |e.path| <= |j.visited| == |j.times|
    && e.path == Trail(j)[..|e.path|] && e.arrivals == j.times[..|e.path|]
  }

  /** What the log says of a job that is still on its way. */
  ghost predicate Forward(c: Config, j: Job, e: Entry) {
    && Walk(c, j) && History(j, e) && j.acked == [] && |e.path| == |j.visited| > 0
    && e.origin == j.visited[|j.visited| - 1]
  }

  /** And of one that is being acknowledged: what is on the stack has not been retraced. */
  ghost predicate Returning(c: Config, j: Job, e: Entry) {
    && Ended(c, j) && History(j, e)
    && j.acked == Reverse(j.visited[|e.path|..])
  }

  /** The event has counted the job's waiting times and kept the time of its external arrival. */
  ghost predicate Timed(j: Job, e: Entry) {
    && e.delay == j.waited && e.externalArrival == j.external
    && j.external <= if j.times != [] then j.times[0] else e.arrival
  }

  ghost predicate TokenOk(c: Config, j: Job, e: Entry)
    requires IsToken(e)
  {
    Timed(j, e) &&
    match e.kind
    case LastArrival =>
      && j == NewJob(e.externalArrival) && e.path == [] && e.arrivals == []
      && e.origin == EXTERNAL_EVENT && 0 <= e.destination < |c.graph|
    case Arrival => Forward(c, j, e) && IsEdge(c.graph, e.origin, e.destination) && e.destination < |c.graph|
    case Departure => Forward(c, j, e) && e.destination == e.origin
    case Ack =>
      && Returning(c, j, e) && e.path != [] && e.destination == j.visited[|e.path| - 1]
      && (|e.path| < |j.visited| ==> e.origin == j.visited[|e.path|])
    case Leave => Returning(c, j, e) && e.path == [] && e.origin == j.visited[0]
  }

  /** A 1-hop acknowledgement has history and comes from an out-neighbour. */
  ghost predicate HopOk(c: Config, e: Entry) {
    && e.path != [] && |e.arrivals| == |e.path|
    && 0 <= e.destination < |c.graph| && IsEdge(c.graph, e.destination, e.origin)
  }

  /** Events that carry a job: all but 1-hop copies and administrative events. */
  predicate IsToken(e: Entry) {
    !e.kind.Ack1Hop? && !e.kind.GenerateArrivals? && !e.kind.Administrative?
  }

  ghost predicate EventOk(c: Config, jobs: map<nat, Job>, e: Entry) {
    && (IsToken(e) ==> e.id in jobs && TokenOk(c, jobs[e.id], e))
    && (e.kind.Ack1Hop? ==> e.id in jobs && jobs[e.id].visited != [] && HopOk(c, e))
  }

  ghost predicate EventsOk(c: Config, jobs: map<nat, Job>, p: seq<Entry>) {
    forall e :: e in p ==> EventOk(c, jobs, e)
  }

  function TokenOf(id: nat): Entry -> nat {
    (e: Entry) => if IsToken(e) && e.id == id then 1 else 0
  }

  function Occurrences(s: seq<nat>, x: nat): nat {
    if s == [] then 0 else Occurrences(s[..|s| - 1], x) + if s[|s| - 1] == x then 1 else 0
  }

  /** A job is pending in one event or has left once; there is no other token. */
  ghost predicate OneToken(w: World, held: seq<Entry>, id: nat) {
    Total(w.pending, TokenOf(id)) + Total(held, TokenOf(id)) + Occurrences(w.left, id) == if id in w.jobs then 1 else 0
  }

  ghost predicate HasReturned(c: Config, jobs: map<nat, Job>, id: nat) {
    id in jobs && Ended(c, jobs[id]) && jobs[id].acked == Reverse(jobs[id].visited)
  }

  ghost predicate ActionOk(c: Config, v: nat, action: int)
    requires v < |c.graph|
  {
    c.graph[v] != [] ==> action == -1 || IsEdge(c.graph, v, action)
  }

  /** The invariant; `held` is the event that is being handled. */
  ghost predicate RoutesOk(c: Config, w: World, held: seq<Entry>) {
    && Sized(c, w) && WellFormed(c.graph)
    && EventsOk(c, w.jobs, w.pending) && EventsOk(c, w.jobs, held)
    && (forall id :: id in w.jobs ==> id <= w.uid)
    && (forall id: nat :: OneToken(w, held, id))
    && (forall id :: id in w.left ==> HasReturned(c, w.jobs, id))
    && (forall v: nat :: v < |c.graph| ==> ActionOk(c, v, w.nextAction[v]))
  }

  lemma {:induction false} InitialRoutesOk(c: Config, w: World)
    requires WellFormed(c.graph) && Initial(c, w)
    ensures RoutesOk(c, w, [])
  {
    forall id: nat ensures OneToken(w, [], id) {
      assert w.pending == [w.pending[0]];
      TotalOne(w.pending[0], TokenOf(id));
    }
  }

  // ---- what the handlers rely on -----------------------------------------------------------

  /** No handler meets a missing vertex or an empty history stack. */
  lemma {:induction false} EventsAreHandled(c: Config, w: World, e: Entry)
    requires RoutesOk(c, w, []) && e in w.pending
    ensures Handled(c, e)
  {
    assert EventOk(c, w.jobs, e);
  }

  /** An acknowledgement that reaches a vertex with out-edges comes over one of them. */
  lemma {:induction false} AcknowledgedOverEdge(c: Config, w: World, e: Entry)
    requires RoutesOk(c, w, []) && e in w.pending && (e.kind.Ack? || e.kind.Ack1Hop?)
    ensures 0 <= e.destination < |c.graph|
    ensures c.graph[e.destination] != [] ==> IsEdge(c.graph, e.destination, e.origin)
  {
    assert EventOk(c, w.jobs, e);
    if e.kind.Ack? {
      var j, k := w.jobs[e.id], |e.path|;
      if k < |j.visited| { assert IsEdge(c.graph, j.visited[k - 1], j.visited[k]); }
    }
  }

  /** On top of the stack of an acknowledgement lies the time at which its job had arrived. */
  lemma {:induction false} RewardIsTimeSinceArrival(c: Config, w: World, e: Entry)
    requires RoutesOk(c, w, []) && e in w.pending && e.kind.Ack?
    ensures var j, k := w.jobs[e.id], |e.path| - 1;
      && 0 <= k < |j.visited| == |j.times| && e.arrivals != []
      && j.visited[k] == e.destination
      && e.Reward() == if j.times[k] < e.arrival then j.times[k] - e.arrival else 0.0
  {
    assert EventOk(c, w.jobs, e);
  }

  /** A job that leaves knows its external arrival, and its delay is the sum of its waits. */
  lemma {:induction false} LeavingJobIsTimed(c: Config, w: World, e: Entry)
    requires RoutesOk(c, w, []) && e in w.pending && e.kind.Leave?
    ensures e.id in w.jobs
    ensures var j := w.jobs[e.id];
      && j.times != [] && e.externalArrival == j.external <= j.times[0] && e.delay == j.waited
      && e.origin == j.visited[0] && e.path == []
  {
    assert EventOk(c, w.jobs, e);
  }

  // ---- taking an event out ------------------------------------------------------------------

  lemma {:induction false} HoldKeeps(c: Config, w: World, i: nat)
    requires RoutesOk(c, w, []) && i < |w.pending|
    ensures var e := Corrected(w.pending[i], w.now);
      RoutesOk(c, w.(pending := Without(w.pending, i), now := e.arrival), [e])
  {
    hide EventOk, TokenOf, Corrected;
    var e := Corrected(w.pending[i], w.now);
    var w1 := w.(pending := Without(w.pending, i), now := e.arrival);
    CorrectionKeeps(c, w.jobs, w.pending[i], w.now);
    forall id: nat ensures OneToken(w1, [e], id) {
      assert OneToken(w, [], id);
      TotalWithout(w.pending, i, TokenOf(id));
      TotalOne(e, TokenOf(id));
      SameToken(w.pending[i], w.now, id);
    }
  }

  /** Correcting the time of an event changes neither its job nor its history. */
  lemma {:induction false} CorrectionKeeps(c: Config, jobs: map<nat, Job>, e: Entry, now: real)
    requires EventOk(c, jobs, e)
    ensures EventOk(c, jobs, Corrected(e, now))
  {
  }

  lemma {:induction false} SameToken(e: Entry, now: real, id: nat)
    ensures TokenOf(id)(Corrected(e, now)) == TokenOf(id)(e)
  {
  }

  /** The log of a job can change under the one event that carries it. */
  lemma {:induction false} OthersKeep(c: Config, w: World, e: Entry, j: Job)
    requires RoutesOk(c, w, [e]) && IsToken(e) && j.visited != []
    ensures EventsOk(c, w.jobs[e.id := j], w.pending)
  {
    hide TokenOk, HopOk;
    assert OneToken(w, [e], e.id);
    assert EventOk(c, w.jobs, e);
    TotalOne(e, TokenOf(e.id));
    forall x | x in w.pending ensures EventOk(c, w.jobs[e.id := j], x) {
      assert EventOk(c, w.jobs, x);
      var k :| 0 <= k < |w.pending| && w.pending[k] == x;
      TotalAtLeast(w.pending, k, TokenOf(e.id));
    }
  }

  lemma {:induction false} StillReturned(c: Config, w: World, e: Entry, j: Job)
    requires RoutesOk(c, w, [e]) && IsToken(e)
    ensures forall id :: id in w.left ==> HasReturned(c, w.jobs[e.id := j], id)
  {
    hide EventsOk, Ended;
    assert OneToken(w, [e], e.id);
    HeldToken(c, w, e);
    TotalOne(e, TokenOf(e.id));
    if e.id in w.left { Occurs(w.left, e.id); }
  }

  lemma {:induction false} HeldOk(c: Config, w: World, e: Entry)
    requires EventsOk(c, w.jobs, [e])
    ensures EventOk(c, w.jobs, e)
  {
    assert e in [e];
  }

  lemma {:induction false} HeldToken(c: Config, w: World, e: Entry)
    requires RoutesOk(c, w, [e]) && IsToken(e)
    ensures e.id in w.jobs && TokenOk(c, w.jobs[e.id], e)
  {
    HeldOk(c, w, e);
  }

  lemma {:induction false} Occurs(s: seq<nat>, x: nat)
    requires x in s
    ensures Occurrences(s, x) > 0
  {
    if s[|s| - 1] == x {
    } else {
      Occurs(s[..|s| - 1], x);
    }
  }

  lemma {:induction false} OccursSnoc(s: seq<nat>, y: nat, x: nat)
    ensures Occurrences(s + [y], x) == Occurrences(s, x) + if y == x then 1 else 0
  {
    assert (s + [y])[..|s|] == s;
  }

  // ---- passing the token on --------------------------------------------------------------

  /** The events that replace the held one: the token moves to the first, the others are 1-hop
      copies. */
  ghost predicate Replaces(es: seq<Entry>, e: Entry) {
    && es != [] && IsToken(es[0]) && es[0].id == e.id
    && forall k :: 1 <= k < |es| ==> !IsToken(es[k])
  }

  lemma {:induction false} ReplacedTotal(es: seq<Entry>, e: Entry, id: nat)
    requires Replaces(es, e) && IsToken(e)
    ensures Total(es, TokenOf(id)) == Total([e], TokenOf(id))
  {
    TotalOne(e, TokenOf(id));
    TotalOne(es[0], TokenOf(id));
    assert es == [es[0]] + es[1..];
    TotalAppend([es[0]], es[1..], TokenOf(id));
    forall k | 0 <= k < |es[1..]| ensures TokenOf(id)(es[1..][k]) == 0 {
      assert es[1..][k] == es[k + 1];
    }
    TotalZero(es[1..], TokenOf(id));
  }

  /** Handing a held token on keeps the invariant, if the new events agree with the new log. */
  lemma {:induction false} PassOn(c: Config, w: World, e: Entry, j: Job, es: seq<Entry>, w': World)
    requires RoutesOk(c, w, [e]) && IsToken(e) && Replaces(es, e) && j.visited != []
    requires EventsOk(c, w.jobs[e.id := j], es)
    requires Sized(c, w') && w'.nextAction == w.nextAction
    requires w'.pending == w.pending + es && w'.jobs == w.jobs[e.id := j]
    requires w'.left == w.left && w'.uid >= w.uid
    ensures RoutesOk(c, w', [])
  {
    hide EventOk, TokenOf, HasReturned, ActionOk, Replaces;
    OthersKeep(c, w, e, j);
    StillReturned(c, w, e, j);
    HeldToken(c, w, e);
    forall id: nat ensures OneToken(w', [], id) {
      assert OneToken(w, [e], id);
      ReplacedTotal(es, e, id);
      TotalAppend(w.pending, es, TokenOf(id));
    }
  }

  // ---- the handlers ----------------------------------------------------------------------

  lemma {:induction false} AddExternalKeeps(c: Config, w: World, held: seq<Entry>, gap: real, v: nat)
    requires RoutesOk(c, w, held) && v < |c.graph|
    ensures RoutesOk(c, AddExternal(w, gap, v), held)
  {
    hide TokenOk, HopOk, ActionOk, Ended;
    var id, x, w' := w.uid + 1, External(w.uid, w.now, gap, v), AddExternal(w, gap, v);
    assert EventOk(c, w'.jobs, x) by { NewTokenOk(c, w, gap, v); }
    forall y | EventOk(c, w.jobs, y) ensures EventOk(c, w'.jobs, y) {}
    forall i: nat ensures OneToken(w', held, i) {
      assert OneToken(w, held, i);
      TotalAppend(w.pending, [x], TokenOf(i));
      TotalOne(x, TokenOf(i));
    }
    forall i | i in w'.left ensures HasReturned(c, w'.jobs, i) { assert HasReturned(c, w.jobs, i); }
  }

  lemma {:induction false} NewTokenOk(c: Config, w: World, gap: real, v: nat)
    requires v < |c.graph|
    ensures TokenOk(c, NewJob(w.now + gap), External(w.uid, w.now, gap, v))
  {
  }

  lemma {:induction false} AddExternalsKeeps(c: Config, w: World, held: seq<Entry>, gaps: seq<real>)
    requires RoutesOk(c, w, held) && |gaps| <= |c.graph|
    ensures RoutesOk(c, AddExternals(w, gaps), held)
  {
    hide RoutesOk;
    if gaps == [] {
    } else {
      AddExternalsKeeps(c, w, held, gaps[..|gaps| - 1]);
      AddExternalKeeps(c, AddExternals(w, gaps[..|gaps| - 1]), held, gaps[|gaps| - 1], |gaps| - 1);
    }
  }

  /** An arrival extends the walk and the stacks alike. */
  lemma {:induction false} VisitForward(c: Config, j: Job, e: Entry, x: Vertex, service: real, uid: nat)
    requires (e.kind.LastArrival? || e.kind.Arrival?) && TokenOk(c, j, e)
    ensures var d := DepartureOf(x, e, service, uid);
      IsToken(d) && d.id == e.id && TokenOk(c, Visit(j, e.destination, e.arrival, Delay(x, e.arrival)), d)
  {
    hide Walk, Trail, DepartureTime;
    var j', d := Visit(j, e.destination, e.arrival, Delay(x, e.arrival)), DepartureOf(x, e, service, uid);
    VisitWalks(c, j, e, Delay(x, e.arrival));
    VisitTrail(c, j, e, Delay(x, e.arrival));
    assert d.path == e.path + [e.origin] && d.arrivals == e.arrivals + [e.arrival];
  }

  lemma {:induction false} VisitWalks(c: Config, j: Job, e: Entry, delay: real)
    requires (e.kind.LastArrival? || e.kind.Arrival?) && TokenOk(c, j, e)
    ensures Walk(c, Visit(j, e.destination, e.arrival, delay))
  {
  }

  lemma {:induction false} VisitTrail(c: Config, j: Job, e: Entry, delay: real)
    requires (e.kind.LastArrival? || e.kind.Arrival?) && TokenOk(c, j, e)
    ensures var j' := Visit(j, e.destination, e.arrival, delay);
      && |e.path| == |j.visited| && |j'.visited| == |j'.times| == |e.path| + 1
      && e.path + [e.origin] == Trail(j')[..|e.path| + 1]
      && e.arrivals + [e.arrival] == j'.times[..|e.path| + 1]
  {
    var t, k := Trail(j), |j.visited|;
    assert Trail(Visit(j, e.destination, e.arrival, delay)) == t + [e.destination];
    assert t == t[..k] + [t[k]];
  }

  lemma {:induction false} ArrivalKeeps(c: Config, w: World, e: Entry, service: real)
    requires RoutesOk(c, w, [e]) && (e.kind.LastArrival? || e.kind.Arrival?) && 0 <= e.destination < |c.graph|
    ensures RoutesOk(c, HandleArrival(w, e, service), [])
  {
    hide RoutesOk, TokenOk, DepartureOf;
    SizedOk(c, w, e);
    HeldToken(c, w, e);
    var j, x := w.jobs[e.id], w.servers[e.destination].vertex;
    var d := DepartureOf(x, e, service, w.uid);
    VisitForward(c, j, e, x, service, w.uid);
    PassOn(c, w, e, Visit(j, e.destination, e.arrival, Delay(x, e.arrival)), [d], HandleArrival(w, e, service));
  }

  lemma {:induction false} SizedOk(c: Config, w: World, e: Entry)
    requires RoutesOk(c, w, [e])
    ensures Sized(c, w) && WellFormed(c.graph)
    ensures forall v: nat :: v < |c.graph| ==> ActionOk(c, v, w.nextAction[v])
  {
  }

  /** A departure passes the job to an out-neighbour, or turns it round where there is none. */
  lemma {:induction false} OnwardForward(c: Config, w: World, j: Job, e: Entry, choice: int)
    requires Sized(c, w) && WellFormed(c.graph)
    requires forall v: nat :: v < |c.graph| ==> ActionOk(c, v, w.nextAction[v])
    requires e.kind.Departure? && TokenOk(c, j, e) && 0 <= e.destination < |c.graph|
    requires c.graph[e.destination] != [] ==> IsEdge(c.graph, e.destination, choice)
    ensures var o := Onward(c, w, e, choice);
      IsToken(o) && o.id == e.id && TokenOk(c, j, o)
  {
    var v: nat := e.destination;
    assert ActionOk(c, v, w.nextAction[v]);
    var o := Onward(c, w, e, choice);
    if c.graph[v] != [] {
      assert IsEdge(c.graph, v, o.destination);
    } else {
      assert j.visited[|e.path|..] == [];
    }
  }

  lemma {:induction false} DepartureKeeps(c: Config, w: World, e: Entry, choice: int)
    requires RoutesOk(c, w, [e]) && e.kind.Departure? && 0 <= e.destination < |c.graph|
    requires c.graph[e.destination] != [] ==> IsEdge(c.graph, e.destination, choice)
    requires |w.servers| == |w.nextAction| == |c.graph|
    ensures RoutesOk(c, HandleDeparture(c, w, e, choice), [])
  {
    hide RoutesOk, TokenOk, Onward, ActionOk, WellFormed;
    SizedOk(c, w, e);
    HeldToken(c, w, e);
    var j, o := w.jobs[e.id], Onward(c, w, e, choice);
    OnwardForward(c, w, j, e, choice);
    TokenVisited(c, j, e);
    assert w.jobs[e.id := j] == w.jobs;
    PassOn(c, w, e, j, [o], HandleDeparture(c, w, e, choice));
  }

  lemma {:induction false} LearnKeeps(c: Config, w: World, held: seq<Entry>, v: nat, choice: int)
    requires RoutesOk(c, w, held) && v < |c.graph|
    requires c.graph[v] != [] ==> IsEdge(c.graph, v, choice)
    ensures RoutesOk(c, Learn(c, w, v, choice), held)
  {
    hide EventsOk, HasReturned;
    forall id: nat ensures OneToken(Learn(c, w, v, choice), held, id) {
      assert OneToken(w, held, id);
    }
    assert ActionOk(c, v, NewAction(c, v, choice));
  }

  function Acknowledged(j: Job, v: int): Job { j.(acked := j.acked + [v]) }

  /** One hop back: the stack and the acknowledged part of the walk move by one vertex. */
  lemma {:induction false} BackwardReturning(c: Config, j: Job, e: Entry, uid: nat)
    requires e.kind.Ack? && TokenOk(c, j, e) && e.path != [] && e.arrivals != []
    ensures var b := Backward(e, uid);
      IsToken(b) && b.id == e.id && TokenOk(c, Acknowledged(j, e.destination), b)
  {
    hide Ended;
    var k, b := |e.path|, Backward(e, uid);
    assert b.path == Trail(j)[..k - 1] && b.arrivals == j.times[..k - 1];
    assert j.visited[k - 1..][1..] == j.visited[k..];
    AcknowledgedEnded(c, j, e.destination);
    assert k >= 2 ==> e.path[k - 1] == j.visited[k - 2];
  }

  lemma {:induction false} AcknowledgedEnded(c: Config, j: Job, v: int)
    requires Ended(c, j)
    ensures Ended(c, Acknowledged(j, v)) && j.visited != []
    ensures forall k: nat :: k < |j.visited| ==> j.visited[k] >= 0
  {
  }

  /** Below an acknowledgement that goes on to another vertex there is more history. */
  lemma {:induction false} MoreHistory(c: Config, j: Job, e: Entry)
    requires e.kind.Ack? && TokenOk(c, j, e) && e.path[|e.path| - 1] != EXTERNAL_EVENT
    ensures |e.path| >= 2 && |e.arrivals| == |e.path|
  {
    assert e.path[0] == EXTERNAL_EVENT;
  }

  /** Told are the in-neighbours but for the excepted one, each of them once. */
  lemma {:induction false} OthersAreNeighbours(g: Graph, v: int, except: int, k: nat)
    requires k <= |g|
    ensures forall u: nat :: u in Others(g, v, except, k) <==> u < k && u != except && IsEdge(g, u, v)
    ensures forall i, j :: 0 <= i < j < |Others(g, v, except, k)| ==>
      Others(g, v, except, k)[i] < Others(g, v, except, k)[j]
  {
    if k == 0 {
    } else {
      OthersAreNeighbours(g, v, except, k - 1);
      var t := Others(g, v, except, k - 1);
      forall i | 0 <= i < |t| ensures t[i] < k - 1 { assert t[i] in t; }
    }
  }

  lemma {:induction false} OneHopsOk(c: Config, jobs: map<nat, Job>, e: Entry, targets: seq<nat>, uid: nat)
    requires |e.path| >= 2 && |e.arrivals| == |e.path| && e.id in jobs && jobs[e.id].visited != []
    requires forall i :: 0 <= i < |targets| ==> targets[i] < |c.graph| && IsEdge(c.graph, targets[i], e.destination)
    ensures EventsOk(c, jobs, OneHops(e, targets, uid))
    ensures forall h :: h in OneHops(e, targets, uid) ==> h.kind.Ack1Hop?
  {
    if targets == [] {
    } else {
      OneHopsOk(c, jobs, e, targets[..|targets| - 1], uid);
    }
  }

  lemma {:induction false} AudienceOk(c: Config, w: World, j: Job, e: Entry)
    requires e.kind.Ack? && TokenOk(c, j, e) && e.path != [] && e.arrivals != [] && e.id in w.jobs && w.jobs[e.id] == j
    ensures EventsOk(c, w.jobs, OneHops(e, Audience(c, e), w.uid + 1))
    ensures forall h :: h in OneHops(e, Audience(c, e), w.uid + 1) ==> h.kind.Ack1Hop?
  {
    if Audience(c, e) != [] {
      MoreHistory(c, j, e);
      OthersAreNeighbours(c.graph, e.destination, e.path[|e.path| - 1], |c.graph|);
      forall i | 0 <= i < |Audience(c, e)| ensures Audience(c, e)[i] < |c.graph| {
        assert Audience(c, e)[i] in Audience(c, e);
      }
      OneHopsOk(c, w.jobs, e, Audience(c, e), w.uid + 1);
    }
  }

  lemma {:induction false} HopsIgnoreLog(c: Config, jobs: map<nat, Job>, id: nat, j: Job, es: seq<Entry>)
    requires EventsOk(c, jobs, es) && j.visited != [] && forall h :: h in es ==> h.kind.Ack1Hop?
    ensures EventsOk(c, jobs[id := j], es)
  {
    forall h | h in es ensures EventOk(c, jobs[id := j], h) { assert EventOk(c, jobs, h); }
  }

  lemma {:induction false} TokenVisited(c: Config, j: Job, e: Entry)
    requires IsToken(e) && TokenOk(c, j, e) && !e.kind.LastArrival?
    ensures j.visited != []
  {
  }

  lemma {:induction false} AckKeeps(c: Config, w: World, e: Entry, choice: int)
    requires RoutesOk(c, w, [e]) && e.kind.Ack? && Handled(c, e) && Sized(c, w)
    requires c.graph[e.destination] != [] ==> IsEdge(c.graph, e.destination, choice)
    ensures RoutesOk(c, HandleAck(c, w, e, choice), [])
  {
    hide RoutesOk, TokenOk, Backward, OneHops, Audience, NewAction, EventsOk;
    var w1, w' := Learn(c, w, e.destination, choice), HandleAck(c, w, e, choice);
    LearnKeeps(c, w, [e], e.destination, choice);
    HeldToken(c, w1, e);
    var j := w.jobs[e.id];
    var j' := Acknowledged(j, e.destination);
    var b, hops := Backward(e, w.uid), OneHops(e, Audience(c, e), w.uid + 1);
    BackwardReturning(c, j, e, w.uid);
    TokenVisited(c, j, e);
    AudienceOk(c, w1, j, e);
    HopsIgnoreLog(c, w.jobs, e.id, j', hops);
    EventsPush(c, w.jobs[e.id := j'], b, hops);
    assert w.pending + [b] + hops == w.pending + ([b] + hops);
    PassOn(c, w1, e, j', [b] + hops, w');
  }

  lemma {:induction false} EventsPush(c: Config, jobs: map<nat, Job>, e: Entry, es: seq<Entry>)
    requires EventsOk(c, jobs, es) && IsToken(e) && e.id in jobs && TokenOk(c, jobs[e.id], e)
    ensures EventsOk(c, jobs, [e] + es)
  {
    assert EventOk(c, jobs, e);
  }

  lemma {:induction false} LeaveKeeps(c: Config, w: World, e: Entry)
    requires RoutesOk(c, w, [e]) && e.kind.Leave?
    ensures RoutesOk(c, w.(left := w.left + [e.id]), [])
  {
    hide EventsOk, ActionOk, Ended;
    var w' := w.(left := w.left + [e.id]);
    HeldToken(c, w, e);
    assert w.jobs[e.id].visited[0..] == w.jobs[e.id].visited;
    forall id: nat ensures OneToken(w', [], id) {
      assert OneToken(w, [e], id);
      TotalOne(e, TokenOf(id));
      OccursSnoc(w.left, e.id, id);
    }
    assert EventsOk(c, w.jobs, []) by { NoEvents(c, w.jobs); }
  }

  lemma {:induction false} NoEvents(c: Config, jobs: map<nat, Job>)
    ensures EventsOk(c, jobs, [])
  {
  }

  lemma {:induction false} DropKeeps(c: Config, w: World, e: Entry)
    requires RoutesOk(c, w, [e]) && !IsToken(e)
    ensures RoutesOk(c, w, [])
  {
    hide EventOk, ActionOk, HasReturned;
    forall id: nat ensures OneToken(w, [], id) {
      assert OneToken(w, [e], id);
      TotalOne(e, TokenOf(id));
    }
  }

  /** Every step keeps tokens, routes and next actions in order, whichever event is handed out. */
  lemma {:induction false} StepKeepsRoutes(c: Config, w: World, a: Action)
    requires RoutesOk(c, w, []) && Possible(c, w, a) && Handled(c, w.pending[a.index])
    ensures RoutesOk(c, Step(c, w, a), [])
  {
    hide RoutesOk;
    var e, i, d := Corrected(w.pending[a.index], w.now), a.index, a.draws;
    var w1 := w.(pending := Without(w.pending, i), now := e.arrival);
    HoldKeeps(c, w, i);
    SizedOk(c, w1, e);
    match e.kind
    case LastArrival =>
      AddExternalKeeps(c, w1, [e], d.gaps[e.destination], e.destination);
      ArrivalKeeps(c, AddExternal(w1, d.gaps[e.destination], e.destination), e, d.service);
    case Arrival => ArrivalKeeps(c, w1, e, d.service);
    case Departure => DepartureKeeps(c, w1, e, d.choice);
    case Ack => AckKeeps(c, w1, e, d.choice);
    case Ack1Hop => DropKeeps(c, w1, e); LearnKeeps(c, w1, [], e.destination, d.choice);
    case Leave => LeaveKeeps(c, w1, e);
    case GenerateArrivals => AddExternalsKeeps(c, w1, [e], d.gaps); DropKeeps(c, AddExternals(w1, d.gaps), e);
    case Administrative => DropKeeps(c, w1, e);
  }
}
