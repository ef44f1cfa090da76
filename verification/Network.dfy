/** The queueing network as a step machine: each step takes the earliest pending event and lets
    its handlers update one vertex and push new events. Random draws are arbitrary inputs. */
module Network {
  import opened Entries
  import opened Servers

  /** The out-neighbours of each vertex. */
  type Graph = seq<seq<nat>>

  ghost predicate WellFormed(g: Graph) {
    forall u: nat, k: nat :: u < |g| && k < |g[u]| ==> g[u][k] < |g|
  }

  predicate IsEdge(g: Graph, u: int, v: int) {
    0 <= u < |g| && 0 <= v && v in g[u]
  }

  /** `collective` sends 1-hop acknowledgements; `learning` chooses by the stored next action. */
  datatype Config = Config(graph: Graph, collective: bool, learning: bool)

  /** The route of one job: when it was to arrive, where and when it did, how long it has waited in
      all, and where it has been acknowledged. */
  datatype Job = Job(external: real, visited: seq<int>, times: seq<real>, waited: real, acked: seq<int>)

  function NewJob(external: real): Job { Job(external, [], [], 0.0, []) }

  /** `jobs` and `left` log the routes and the ids of the jobs that have left. */
  datatype World = World(
    servers: seq<Server>, nextAction: seq<int>, pending: seq<Entry>, uid: nat, now: real,
    jobs: map<nat, Job>, left: seq<nat>)

  /** What one step draws: a service time, times to the next external arrival of each vertex,
      and a choice among out-neighbours. */
  datatype Draws = Draws(service: real, gaps: seq<real>, choice: int)

  datatype Action = Action(index: nat, draws: Draws)

  /** The event that starts the external arrivals. */
  predicate IsFirst(e: Entry) {
    && e.kind.GenerateArrivals? && e.origin == ADMIN_EVENT && e.destination == -99
    && e.arrival == e.externalArrival == e.delay == 0.0
    && e.id == e.gid == 1 && e.path == [] && e.arrivals == []
  }

  /** Before the simulation: idle vertices without a next action, and one administrative event. */
  ghost predicate Initial(c: Config, w: World) {
    && Sized(c, w)
    && (forall v :: 0 <= v < |c.graph| ==> IsNew(w.servers[v]) && w.nextAction[v] == -1)
    && |w.pending| == 1 && IsFirst(w.pending[0]) && w.uid == 1 && w.now == 0.0 && w.jobs == map[] && w.left == []
  }

  // ---- handlers -----------------------------------------------------------------------------

  /** The next external arrival of a vertex. */
  function External(uid: nat, now: real, gap: real, v: nat): Entry {
    NewEntry(uid, 0.0, now + gap, v, EXTERNAL_EVENT, LastArrival)
  }

  function AddExternal(w: World, gap: real, v: nat): World {
    w.(pending := w.pending + [External(w.uid, w.now, gap, v)],
       jobs := w.jobs[w.uid + 1 := NewJob(w.now + gap)], uid := w.uid + 1)
  }

  /** GenerateArrivalsAdminHandler: one external arrival for each of the first `k` vertices. */
  function AddExternals(w: World, gaps: seq<real>): World {
    if gaps == [] then w
    else AddExternal(AddExternals(w, gaps[..|gaps| - 1]), gaps[|gaps| - 1], |gaps| - 1)
  }

  /** The departure that ArrivalHandler schedules. */
  function DepartureOf(v: Vertex, e: Entry, service: real, uid: nat): Entry {
    var copy := e.Copy(uid).PushHistory(e.origin, e.arrival);
    if v.busy then copy.Delayed(Delay(v, e.arrival), DepartureTime(v, e.arrival, service), Departure)
    else copy.Service(DepartureTime(v, e.arrival, service), Departure)
  }

  function JobOf(w: World, id: nat): Job { if id in w.jobs then w.jobs[id] else NewJob(0.0) }

  function Visit(j: Job, v: int, t: real, delay: real): Job {
    j.(visited := j.visited + [v], times := j.times + [t], waited := j.waited + delay)
  }

  function HandleArrival(w: World, e: Entry, service: real): World
    requires 0 <= e.destination < |w.servers|
  {
    var v := e.destination;
    w.(servers := w.servers[v := Admit(w.servers[v], e.arrival, service)],
       pending := w.pending + [DepartureOf(w.servers[v].vertex, e, service, w.uid)],
       uid := w.uid + 1,
       jobs := w.jobs[e.id := Visit(JobOf(w, e.id), v, e.arrival, Delay(w.servers[v].vertex, e.arrival))])
  }

  /** OnPolicySelection prefers the stored next action; RandomSelection has none. */
  function Selected(c: Config, w: World, v: nat, choice: int): int
    requires v < |w.nextAction|
  {
    if c.learning && w.nextAction[v] >= 0 then w.nextAction[v] else choice
  }

  /** What DepartureHandler pushes: the job moves on, or its acknowledgement starts. */
  function Onward(c: Config, w: World, e: Entry, choice: int): Entry
    requires 0 <= e.destination < |c.graph| == |w.nextAction|
  {
    var v := e.destination;
    if c.graph[v] != [] then e.Copy(w.uid).Depart(Selected(c, w, v, choice), Arrival)
    else e.Copy(w.uid).Acknowledge(v, v, Ack)
  }

  function HandleDeparture(c: Config, w: World, e: Entry, choice: int): World
    requires 0 <= e.destination < |c.graph| == |w.servers| == |w.nextAction|
  {
    var v := e.destination;
    w.(servers := w.servers[v := Discharge(w.servers[v], e.arrival)],
       pending := w.pending + [Onward(c, w, e, choice)],
       uid := w.uid + 1)
  }

  /** The next action that RLResponseHandler stores at an acknowledged vertex. */
  function NewAction(c: Config, v: nat, choice: int): int
    requires v < |c.graph|
  {
    if |c.graph[v]| > 1 then choice else if |c.graph[v]| == 1 then c.graph[v][0] else 0
  }

  function Learn(c: Config, w: World, v: nat, choice: int): World
    requires v < |c.graph| == |w.nextAction|
  {
    if c.learning then w.(nextAction := w.nextAction[v := NewAction(c, v, choice)]) else w
  }

  /** The first of AckHandler's events: one hop back, or out of the system. */
  function Backward(e: Entry, uid: nat): Entry
    requires e.path != [] && e.arrivals != []
  {
    var to := e.path[|e.path| - 1];
    var copy := e.PopHistory().Copy(uid);
    if to == EXTERNAL_EVENT then copy.LeaveSystem(EXTERNAL_EVENT, Leave)
    else copy.Acknowledge(e.destination, to, Ack)
  }

  /** In-neighbours of `v` among the first `k` vertices, but for `except`. */
  function Others(g: Graph, v: int, except: int, k: nat): seq<nat>
    requires k <= |g|
  {
    if k == 0 then []
    else Others(g, v, except, k - 1) + if IsEdge(g, k - 1, v) && k - 1 != except then [k - 1] else []
  }

  /** A copy of the acknowledgement for each listed vertex. */
  function OneHops(e: Entry, targets: seq<nat>, uid: nat): seq<Entry>
    requires e.path != [] && e.arrivals != []
  {
    if targets == [] then []
    else
      var n := |targets| - 1;
      OneHops(e, targets[..n], uid)
        + [e.PopHistory().Copy(uid + n).Acknowledge(e.destination, targets[n], Ack1Hop)]
  }

  /** Who else is told of an acknowledgement. */
  function Audience(c: Config, e: Entry): seq<nat>
    requires e.path != []
  {
    var to := e.path[|e.path| - 1];
    if c.collective && to != EXTERNAL_EVENT then Others(c.graph, e.destination, to, |c.graph|) else []
  }

  function HandleAck(c: Config, w: World, e: Entry, choice: int): World
    requires 0 <= e.destination < |c.graph| == |w.nextAction| && e.path != [] && e.arrivals != []
  {
    var w1 := Learn(c, w, e.destination, choice);
    var told := Audience(c, e);
    w1.(pending := w.pending + [Backward(e, w.uid)] + OneHops(e, told, w.uid + 1),
        uid := w.uid + 1 + |told|,
        jobs := w.jobs[e.id := JobOf(w, e.id).(acked := JobOf(w, e.id).acked + [e.destination])])
  }

  // ---- steps --------------------------------------------------------------------------------

  predicate AtVertex(kind: EventType) {
    kind.LastArrival? || kind.Arrival? || kind.Departure? || kind.Ack? || kind.Ack1Hop?
  }

  /** What the handlers rely on: an existing vertex, and history where they look at it. */
  predicate Handled(c: Config, e: Entry) {
    && (AtVertex(e.kind) ==> 0 <= e.destination < |c.graph|)
    && (e.kind.Ack? || e.kind.Ack1Hop? ==> e.path != [] && e.arrivals != [])
  }

  ghost predicate Sized(c: Config, w: World) {
    |w.servers| == |w.nextAction| == |c.graph|
  }

  function Without<T>(s: seq<T>, i: nat): seq<T>
    requires i < |s|
  {
    s[..i] + s[i + 1..]
  }

  /** The event processor's dispatch; a first arrival falls through to the arrival handlers. */
  function Dispatch(c: Config, w: World, e: Entry, d: Draws): World
    requires Sized(c, w) && Handled(c, e)
    requires e.kind.LastArrival? ==> |d.gaps| == |c.graph|
  {
    match e.kind
    case LastArrival => HandleArrival(AddExternal(w, d.gaps[e.destination], e.destination), e, d.service)
    case Arrival => HandleArrival(w, e, d.service)
    case Departure => HandleDeparture(c, w, e, d.choice)
    case Ack => HandleAck(c, w, e, d.choice)
    case Ack1Hop => Learn(c, w, e.destination, d.choice)
    case Leave => w.(left := w.left + [e.id])
    case GenerateArrivals => AddExternals(w, d.gaps)
    case Administrative => w
  }

  /** `numeric_limits<double>::epsilon()`. */
  const EPSILON: real := 1.0 / 4503599627370496.0

  /** The processor moves an event that lies before the clock just behind it. */
  function Corrected(e: Entry, now: real): Entry {
    if e.arrival < now then e.(arrival := now + EPSILON) else e
  }

  function Step(c: Config, w: World, a: Action): World
    requires Sized(c, w) && a.index < |w.pending| && Handled(c, w.pending[a.index])
    requires |a.draws.gaps| == |c.graph|
  {
    var e := Corrected(w.pending[a.index], w.now);
    Dispatch(c, w.(pending := Without(w.pending, a.index), now := e.arrival), e, a.draws)
  }

  ghost predicate Minimal(p: seq<Entry>, i: nat) {
    i < |p| && forall j :: 0 <= j < |p| ==> p[i].arrival <= p[j].arrival
  }

  /** Draws the generators can return: no negative times, and an out-neighbour if there is one. */
  ghost predicate Legal(c: Config, w: World, a: Action)
    requires a.index < |w.pending|
  {
    var v, d := w.pending[a.index].destination, a.draws;
    && d.service >= 0.0
    && |d.gaps| == |c.graph| && (forall i :: 0 <= i < |d.gaps| ==> d.gaps[i] >= 0.0)
    && (0 <= v < |c.graph| && c.graph[v] != [] ==> IsEdge(c.graph, v, d.choice))
  }

  /** Any pending event may be handed out. */
  ghost predicate Possible(c: Config, w: World, a: Action) {
    a.index < |w.pending| && Legal(c, w, a)
  }

  /** In time order the queue hands out an event of minimal arrival time, any one of them on ties. */
  ghost predicate Enabled(c: Config, w: World, a: Action) {
    Minimal(w.pending, a.index) && Possible(c, w, a)
  }

  /** A run of the machine, whatever order the queue keeps. Where a handler would meet an event it
      cannot handle, anything may follow; that this never happens is part of what is proved. */
  ghost predicate IsFreeRun(c: Config, ws: seq<World>, acts: seq<Action>) {
    && |ws| == |acts| + 1 && WellFormed(c.graph)
    && forall k: nat :: k < |acts| ==> StepsTo(c, ws[k], acts[k], ws[k + 1])
  }

  ghost predicate StepsTo(c: Config, w: World, a: Action, w': World) {
    && Possible(c, w, a)
    && (Sized(c, w) && Handled(c, w.pending[a.index]) ==> w' == Step(c, w, a))
  }

  ghost predicate InTimeOrder(ws: seq<World>, acts: seq<Action>)
    requires |ws| == |acts| + 1
  {
    forall k: nat :: k < |acts| ==> Minimal(ws[k].pending, acts[k].index)
  }

  /** A run in time order. */
  ghost predicate IsRun(c: Config, ws: seq<World>, acts: seq<Action>) {
    IsFreeRun(c, ws, acts) && InTimeOrder(ws, acts)
  }

  // ---- adding up over pending events -----------------------------------------------------

  function Total(s: seq<Entry>, f: Entry -> nat): nat {
    if s == [] then 0 else Total(s[..|s| - 1], f) + f(s[|s| - 1])
  }

  lemma {:induction false} TotalAppend(s: seq<Entry>, t: seq<Entry>, f: Entry -> nat)
    ensures Total(s + t, f) == Total(s, f) + Total(t, f)
  {
    if t == [] {
      assert s + t == s;
    } else {
      TotalAppend(s, t[..|t| - 1], f);
      assert (s + t)[..|s + t| - 1] == s + t[..|t| - 1];
    }
  }

  lemma {:induction false} TotalOne(e: Entry, f: Entry -> nat)
    ensures Total([e], f) == f(e)
  {
    assert [e][..0] == [];
  }

  lemma {:induction false} TotalWithout(s: seq<Entry>, i: nat, f: Entry -> nat)
    requires i < |s|
    ensures Total(s, f) == Total(Without(s, i), f) + f(s[i])
  {
    assert s == s[..i] + [s[i]] + s[i + 1..];
    TotalAppend(s[..i] + [s[i]], s[i + 1..], f);
    TotalAppend(s[..i], [s[i]], f);
    TotalOne(s[i], f);
    TotalAppend(s[..i], s[i + 1..], f);
  }

  lemma {:induction false} TotalAtLeast(s: seq<Entry>, i: nat, f: Entry -> nat)
    requires i < |s|
    ensures Total(s, f) >= f(s[i])
  {
    TotalWithout(s, i, f);
  }

  lemma {:induction false} TotalZero(s: seq<Entry>, f: Entry -> nat)
    requires forall i :: 0 <= i < |s| ==> f(s[i]) == 0
    ensures Total(s, f) == 0
  {
    if s == [] {
    } else {
      TotalZero(s[..|s| - 1], f);
    }
  }
}
