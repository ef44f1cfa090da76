/** Runs of the network from the start: the invariants hold throughout, jobs retrace their routes,
    and once the external arrivals stop the pending events run out. */
module NetworkRuns {
  import opened Entries
  import opened RealSums
  import opened Servers
  import opened Network
  import opened NetworkServers
  import opened NetworkRoutes

  // ---- external arrivals -------------------------------------------------------------------

  function ExternalAt(v: nat): Entry -> nat {
    (e: Entry) => if e.kind.LastArrival? && e.destination == v then 1 else 0
  }

  function Starting(): Entry -> nat {
    (e: Entry) => if e.kind.GenerateArrivals? then 1 else 0
  }

  /** One external arrival is pending at each vertex, or the event that will generate them. */
  ghost predicate OneExternal(p: seq<Entry>, v: nat) {
    Total(p, ExternalAt(v)) + Total(p, Starting()) == 1
  }

  ghost predicate ExternalsOk(c: Config, w: World) {
    forall v: nat :: v < |c.graph| ==> OneExternal(w.pending, v)
  }

  predicate Internal(e: Entry) { !e.kind.LastArrival? && !e.kind.GenerateArrivals? }

  lemma {:induction false} InternalTotals(p: seq<Entry>, v: nat)
    requires forall e :: e in p ==> Internal(e)
    ensures Total(p, ExternalAt(v)) == 0 && Total(p, Starting()) == 0
  {
    forall i | 0 <= i < |p| ensures Internal(p[i]) { assert p[i] in p; }
    TotalZero(p, ExternalAt(v));
    TotalZero(p, Starting());
  }

  lemma {:induction false} AddExternalsTotals(w: World, gaps: seq<real>, v: nat)
    ensures var p := AddExternals(w, gaps).pending;
      && Total(p, ExternalAt(v)) == Total(w.pending, ExternalAt(v)) + (if v < |gaps| then 1 else 0)
      && Total(p, Starting()) == Total(w.pending, Starting())
  {
    if gaps == [] {
    } else {
      var w1, n := AddExternals(w, gaps[..|gaps| - 1]), |gaps| - 1;
      AddExternalsTotals(w, gaps[..n], v);
      AddExternalTotals(w1, gaps[n], n, v);
    }
  }

  lemma {:induction false} AddExternalTotals(w: World, gap: real, u: nat, v: nat)
    ensures var p := AddExternal(w, gap, u).pending;
      && Total(p, ExternalAt(v)) == Total(w.pending, ExternalAt(v)) + (if u == v then 1 else 0)
      && Total(p, Starting()) == Total(w.pending, Starting())
  {
    var x := External(w.uid, w.now, gap, u);
    TotalAppend(w.pending, [x], ExternalAt(v));
    TotalOne(x, ExternalAt(v));
    TotalAppend(w.pending, [x], Starting());
    TotalOne(x, Starting());
  }

  /** What a step pushes, apart from external arrivals. */
  function Pushed(c: Config, w: World, e: Entry, d: Draws): seq<Entry>
    requires Sized(c, w) && Handled(c, e)
  {
    match e.kind
    case LastArrival => [DepartureOf(w.servers[e.destination].vertex, e, d.service, w.uid + 1)]
    case Arrival => [DepartureOf(w.servers[e.destination].vertex, e, d.service, w.uid)]
    case Departure => [Onward(c, w, e, d.choice)]
    case Ack => [Backward(e, w.uid)] + OneHops(e, Audience(c, e), w.uid + 1)
    case _ => []
  }

  lemma {:induction false} PushedInternal(c: Config, w: World, e: Entry, d: Draws)
    requires Sized(c, w) && Handled(c, e)
    ensures forall x :: x in Pushed(c, w, e, d) ==> Internal(x)
  {
    if e.kind.Ack? { OneHopsAreNow(e, Audience(c, e), w.uid + 1); }
  }

  /** The pending events after a step. */
  lemma {:induction false} StepPending(c: Config, w: World, a: Action)
    requires Sized(c, w) && Possible(c, w, a) && Handled(c, w.pending[a.index])
    ensures var e, rest := Corrected(w.pending[a.index], w.now), Without(w.pending, a.index);
      var w1 := w.(pending := rest, now := e.arrival);
      Step(c, w, a).pending ==
        (if e.kind.GenerateArrivals? then AddExternals(w1, a.draws.gaps)
         else if e.kind.LastArrival? then AddExternal(w1, a.draws.gaps[e.destination], e.destination)
         else w1).pending + Pushed(c, w, e, a.draws)
  {
    hide DepartureOf, Onward, Backward, OneHops;
    var e, rest := Corrected(w.pending[a.index], w.now), Without(w.pending, a.index);
    var w1 := w.(pending := rest, now := e.arrival);
    match e.kind
    case Ack =>
      assert rest + [Backward(e, w.uid)] + OneHops(e, Audience(c, e), w.uid + 1) == rest + Pushed(c, w, e, a.draws);
    case Departure => SameOnward(c, w1, w, e, a.draws.choice);
    case _ =>
  }

  lemma {:induction false} SameOnward(c: Config, w: World, w': World, e: Entry, choice: int)
    requires Sized(c, w) && Sized(c, w') && w'.nextAction == w.nextAction && w'.uid == w.uid
    requires 0 <= e.destination < |c.graph|
    ensures Onward(c, w, e, choice) == Onward(c, w', e, choice)
  {
  }

  lemma {:induction false} StepKeepsExternals(c: Config, w: World, a: Action)
    requires Sized(c, w) && ExternalsOk(c, w) && Possible(c, w, a) && Handled(c, w.pending[a.index])
    ensures ExternalsOk(c, Step(c, w, a))
  {
    hide Step, Pushed, Total, AddExternal, AddExternals, ExternalAt, Starting;
    var e, rest, d := Corrected(w.pending[a.index], w.now), Without(w.pending, a.index), a.draws;
    var w1 := w.(pending := rest, now := e.arrival);
    var es := Pushed(c, w, e, d);
    PushedInternal(c, w, e, d);
    StepPending(c, w, a);
    forall v: nat | v < |c.graph| ensures OneExternal(Step(c, w, a).pending, v) {
      assert OneExternal(w.pending, v);
      InternalTotals(es, v);
      RemovedTotals(w.pending, a.index, v);
      AddExternalsTotals(w1, d.gaps, v);
      if e.kind.LastArrival? { AddExternalTotals(w1, d.gaps[e.destination], e.destination, v); }
      var p := if e.kind.GenerateArrivals? then AddExternals(w1, d.gaps).pending
               else if e.kind.LastArrival? then AddExternal(w1, d.gaps[e.destination], e.destination).pending
               else rest;
      TotalAppend(p, es, ExternalAt(v));
      TotalAppend(p, es, Starting());
    }
  }

  lemma {:induction false} RemovedTotals(p: seq<Entry>, i: nat, v: nat)
    requires i < |p|
    ensures Total(p, ExternalAt(v)) ==
      Total(Without(p, i), ExternalAt(v)) + if p[i].kind.LastArrival? && p[i].destination == v then 1 else 0
    ensures Total(p, Starting()) == Total(Without(p, i), Starting()) + if p[i].kind.GenerateArrivals? then 1 else 0
  {
    TotalWithout(p, i, ExternalAt(v));
    TotalWithout(p, i, Starting());
  }

  // ---- every run, in whatever order --------------------------------------------------------

  /** What does not depend on the order in which events are handed out. */
  ghost predicate FreeOk(c: Config, w: World) {
    RoutesOk(c, w, []) && ExternalsOk(c, w)
  }

  lemma {:induction false} InitiallyFree(c: Config, w: World)
    requires WellFormed(c.graph) && Initial(c, w)
    ensures FreeOk(c, w)
  {
    InitialRoutesOk(c, w);
    forall v: nat | v < |c.graph| ensures OneExternal(w.pending, v) {
      assert w.pending == [w.pending[0]];
      TotalOne(w.pending[0], ExternalAt(v));
      TotalOne(w.pending[0], Starting());
    }
  }

  /** Whichever pending event is handed out, its handlers are defined on it, it keeps tokens, routes
      and external arrivals in order, and the corrected clock does not run back. */
  lemma {:induction false} StepKeepsFree(c: Config, w: World, a: Action)
    requires FreeOk(c, w) && Possible(c, w, a)
    ensures Sized(c, w) && Handled(c, w.pending[a.index])
    ensures FreeOk(c, Step(c, w, a))
    ensures w.now <= Step(c, w, a).now == Corrected(w.pending[a.index], w.now).arrival
  {
    hide RoutesOk;
    StepIsDefined(c, w, a);
    StepKeepsExternals(c, w, a);
    StepClock(c, w, a);
  }

  lemma {:induction false} StepIsDefined(c: Config, w: World, a: Action)
    requires RoutesOk(c, w, []) && Possible(c, w, a)
    ensures Sized(c, w) && Handled(c, w.pending[a.index]) && RoutesOk(c, Step(c, w, a), [])
  {
    hide RoutesOk;
    RoutesAreSized(c, w);
    EventsAreHandled(c, w, w.pending[a.index]);
    StepKeepsRoutes(c, w, a);
  }

  lemma {:induction false} RoutesAreSized(c: Config, w: World)
    requires RoutesOk(c, w, [])
    ensures Sized(c, w)
  {
  }

  lemma {:induction false} StepClock(c: Config, w: World, a: Action)
    requires Sized(c, w) && Possible(c, w, a) && Handled(c, w.pending[a.index])
    ensures Step(c, w, a).now == Corrected(w.pending[a.index], w.now).arrival
  {
    var e := Corrected(w.pending[a.index], w.now);
    AddExternalsClock(w.(pending := Without(w.pending, a.index), now := e.arrival), a.draws.gaps);
  }

  lemma {:induction false} AddExternalsClock(w: World, gaps: seq<real>)
    ensures AddExternals(w, gaps).now == w.now
  {
    if gaps == [] {
    } else {
      AddExternalsClock(w, gaps[..|gaps| - 1]);
    }
  }

  /** In every run from the start, whatever order the queue keeps, every step is one the handlers
      define, and the clock never runs back. */
  lemma {:induction false} FreeRunsAreSafe(c: Config, ws: seq<World>, acts: seq<Action>, k: nat)
    requires IsFreeRun(c, ws, acts) && Initial(c, ws[0]) && k < |ws|
    ensures FreeOk(c, ws[k])
    ensures k > 0 ==>
      && Sized(c, ws[k - 1]) && Possible(c, ws[k - 1], acts[k - 1])
      && Handled(c, ws[k - 1].pending[acts[k - 1].index])
      && ws[k] == Step(c, ws[k - 1], acts[k - 1]) && ws[k - 1].now <= ws[k].now
  {
    hide FreeOk, Step;
    if k == 0 {
      InitiallyFree(c, ws[0]);
    } else {
      FreeRunsAreSafe(c, ws, acts, k - 1);
      assert StepsTo(c, ws[k - 1], acts[k - 1], ws[k - 1 + 1]);
      StepKeepsFree(c, ws[k - 1], acts[k - 1]);
    }
  }

  // ---- runs in time order ------------------------------------------------------------------

  /** Jobs arrive exactly when they were to arrive. */
  ghost predicate Punctual(w: World) {
    && (forall id :: id in w.jobs && w.jobs[id].times != [] ==> w.jobs[id].times[0] == w.jobs[id].external)
    && (forall e :: e in w.pending && e.kind.LastArrival? ==> e.arrival == e.externalArrival)
  }

  lemma {:induction false} ExternalsPunctual(w: World, gaps: seq<real>)
    requires Punctual(w)
    ensures Punctual(AddExternals(w, gaps))
  {
    if gaps == [] {
    } else {
      ExternalsPunctual(w, gaps[..|gaps| - 1]);
      ExternalPunctual(AddExternals(w, gaps[..|gaps| - 1]), gaps[|gaps| - 1], |gaps| - 1);
    }
  }

  lemma {:induction false} ExternalPunctual(w: World, gap: real, v: nat)
    requires Punctual(w)
    ensures Punctual(AddExternal(w, gap, v))
  {
  }

  /** An arrival in time: a job's first visit is at its external arrival. */
  lemma {:induction false} ArrivalPunctual(c: Config, w: World, e: Entry, service: real)
    requires RoutesOk(c, w, [e]) && Punctual(w) && (e.kind.LastArrival? || e.kind.Arrival?)
    requires 0 <= e.destination < |c.graph| && (e.kind.LastArrival? ==> e.arrival == e.externalArrival)
    ensures Sized(c, w) && Punctual(HandleArrival(w, e, service))
  {
    hide EventsOk, OneToken, HasReturned;
    HeldToken(c, w, e);
    var w' := HandleArrival(w, e, service);
    var x := DepartureOf(w.servers[e.destination].vertex, e, service, w.uid);
    assert x.kind.Departure?;
    assert w'.pending == w.pending + [x];
    assert w'.jobs.Keys == w.jobs.Keys;
  }

  lemma {:induction false} StepKeepsPunctual(c: Config, w: World, a: Action)
    requires RoutesOk(c, w, []) && Punctual(w) && Possible(c, w, a) && Handled(c, w.pending[a.index])
    requires w.now <= w.pending[a.index].arrival
    ensures Sized(c, w) && Punctual(Step(c, w, a))
  {
    hide RoutesOk, Backward, OneHops, Audience, Onward;
    RoutesAreSized(c, w);
    var e, d := w.pending[a.index], a.draws;
    var w1 := w.(pending := Without(w.pending, a.index), now := e.arrival);
    HoldKeeps(c, w, a.index);
    match e.kind
    case LastArrival =>
      var gap := d.gaps[e.destination];
      ExternalPunctual(w1, gap, e.destination);
      NetworkRoutes.AddExternalKeeps(c, w1, [e], gap, e.destination);
      ArrivalPunctual(c, AddExternal(w1, gap, e.destination), e, d.service);
    case Arrival => ArrivalPunctual(c, w1, e, d.service);
    case GenerateArrivals => ExternalsPunctual(w1, d.gaps);
    case _ => OthersPunctual(c, w1, e, d);
  }

  lemma {:induction false} OthersPunctual(c: Config, w: World, e: Entry, d: Draws)
    requires Sized(c, w) && Punctual(w) && Handled(c, e) && |d.gaps| == |c.graph|
    requires !e.kind.LastArrival? && !e.kind.Arrival? && !e.kind.GenerateArrivals?
    ensures Punctual(Dispatch(c, w, e, d))
  {
    hide Backward, OneHops, Audience, Onward, NewAction, Discharge;
    if e.kind.Departure? {
      OnwardTimes(c, w, e, d.choice);
      OnwardInternal(c, w, e, d.choice);
    } else if e.kind.Ack? {
      OneHopsAreNow(e, Audience(c, e), w.uid + 1);
      BackwardInternal(e, w.uid);
    }
  }

  lemma {:induction false} OnwardInternal(c: Config, w: World, e: Entry, choice: int)
    requires 0 <= e.destination < |c.graph| == |w.nextAction|
    ensures Internal(Onward(c, w, e, choice))
  {
  }

  lemma {:induction false} BackwardInternal(e: Entry, uid: nat)
    requires e.path != [] && e.arrivals != []
    ensures Internal(Backward(e, uid))
  {
  }

  ghost predicate NetworkOk(c: Config, w: World) {
    ServersOk(c, w) && FreeOk(c, w) && Punctual(w)
  }

  lemma {:induction false} InitialOk(c: Config, w: World)
    requires WellFormed(c.graph) && Initial(c, w)
    ensures NetworkOk(c, w)
  {
    hide ServerOk;
    forall v: nat | v < |c.graph| ensures ServerOk(w.servers[v], v, w.pending, 0.0) {
      NewServerOk(w.servers[v], v, w.pending);
    }
    InitiallyFree(c, w);
  }

  lemma {:induction false} NewServerOk(s: Server, v: nat, p: seq<Entry>)
    requires IsNew(s) && |p| == 1 && IsFirst(p[0])
    ensures ServerOk(s, v, p, 0.0)
  {
    hide Consistent;
    IdleConsistent(s);
    IdleLog(s);
    TimesPush([], p[0], v);
    assert [] + [p[0]] == p;
  }

  /** Any step in time order keeps the invariants; the processor's clock correction is never
      needed in such a run. */
  lemma {:induction false} StepKeeps(c: Config, w: World, a: Action)
    requires NetworkOk(c, w) && Enabled(c, w, a)
    ensures Sized(c, w) && Handled(c, w.pending[a.index])
    ensures Corrected(w.pending[a.index], w.now) == w.pending[a.index]
    ensures NetworkOk(c, Step(c, w, a))
    ensures w.now <= Step(c, w, a).now == w.pending[a.index].arrival
  {
    hide ServersOk, RoutesOk, ExternalsOk, Punctual, Step;
    NowAndPending(c, w);
    StepKeepsFree(c, w, a);
    StepKeepsServers(c, w, a);
    StepKeepsPunctual(c, w, a);
  }

  /** In every run in time order from the start all invariants hold throughout. */
  lemma {:induction false} RunsAreSafe(c: Config, ws: seq<World>, acts: seq<Action>, k: nat)
    requires IsRun(c, ws, acts) && Initial(c, ws[0]) && k < |ws|
    ensures NetworkOk(c, ws[k])
    ensures k > 0 ==>
      && Sized(c, ws[k - 1]) && Enabled(c, ws[k - 1], acts[k - 1])
      && Handled(c, ws[k - 1].pending[acts[k - 1].index])
      && ws[k] == Step(c, ws[k - 1], acts[k - 1]) && ws[k - 1].now <= ws[k].now
  {
    hide NetworkOk, Step;
    if k == 0 {
      InitialOk(c, ws[0]);
    } else {
      var l := k - 1;
      RunsAreSafe(c, ws, acts, l);
      assert StepsTo(c, ws[l], acts[l], ws[l + 1]) && Minimal(ws[l].pending, acts[l].index);
      StepKeeps(c, ws[l], acts[l]);
    }
  }

  /** A job that leaves does so with the time of its first arrival at hand. */
  lemma {:induction false} LeavesWithFirstArrival(c: Config, w: World, e: Entry)
    requires NetworkOk(c, w) && e in w.pending && e.kind.Leave?
    ensures e.id in w.jobs && w.jobs[e.id].times != [] && e.externalArrival == w.jobs[e.id].times[0]
  {
    LeavingJobIsTimed(c, w, e);
  }

  /** In every run each vertex serves as Lindley's recursion says, its busy time and its
      remaining service add up to all services drawn, its queue integral is the time spent waiting
      plus that before departures of lone jobs, and its utilisation is a fraction. */
  lemma {:induction false} ServersInRuns(c: Config, ws: seq<World>, acts: seq<Action>, k: nat, v: nat)
    requires IsRun(c, ws, acts) && Initial(c, ws[0]) && k < |ws| && v < |c.graph|
    ensures v < |ws[k].servers|
    ensures var s := ws[k].servers[v]; var x, p := s.vertex, s.past;
      && Lindley(p)
      && Total(ws[k].pending, DepartureAt(v)) == |p.arrivals| - p.served == x.inQueue + (if x.busy then 1 else 0)
      && x.busyTime + (if x.busy then x.serviceEnds - x.lastEvent else 0.0) == Sum(p.services)
      && x.busyTime == BusyUntil(p, x.lastEvent)
      && x.queueTime == WaitingUntil(p, x.lastEvent) + Sum(p.lone) <= PresentUntil(p, x.lastEvent)
      && (x.queueTime == WaitingUntil(p, x.lastEvent) <==> forall i :: 0 <= i < |p.lone| ==> p.lone[i] == 0.0)
      && Times(|p.arrivals|, x.averageDelay) == Sum(p.delays)
      && (x.lastEvent > 0.0 ==>
        && 0.0 <= x.utilisation <= 1.0 && Product(x.utilisation, x.lastEvent) == x.busyTime
        && Product(x.averageQueue, x.lastEvent) == x.queueTime)
  {
    hide Sum, BusyUntil, WaitingUntil, PresentUntil, Times, Total;
    RunsAreSafe(c, ws, acts, k);
    var w := ws[k];
    assert ServerOk(w.servers[v], v, w.pending, w.now);
    PendingDepartures(c, w, v);
    QueueIntegralIff(w.servers[v]);
    if w.servers[v].vertex.lastEvent > 0.0 {
      UtilisationInUnit(w.servers[v]);
      AveragesOverTime(w.servers[v]);
    }
  }

  /** In every run, whatever order the queue keeps, a job that has left was acknowledged at exactly
      the vertices of its route, last one first, left once, and leaves no token behind. */
  lemma {:induction false} LeavesByItsRoute(c: Config, ws: seq<World>, acts: seq<Action>, k: nat, id: nat)
    requires IsFreeRun(c, ws, acts) && Initial(c, ws[0]) && k < |ws| && id in ws[k].left
    ensures id in ws[k].jobs && Occurrences(ws[k].left, id) == 1
    ensures var j := ws[k].jobs[id];
      && j.visited != [] && |j.acked| == |j.visited|
      && forall i :: 0 <= i < |j.visited| ==> j.acked[i] == j.visited[|j.visited| - 1 - i]
    ensures forall e :: e in ws[k].pending && e.id == id ==> !IsToken(e)
  {
    FreeRunsAreSafe(c, ws, acts, k);
    var w := ws[k];
    assert HasReturned(c, w.jobs, id) && OneToken(w, [], id);
    Occurs(w.left, id);
    var j := w.jobs[id];
    ReverseAt(j.visited, 0);
    forall i: nat | i < |j.visited| ensures j.acked[i] == j.visited[|j.visited| - 1 - i] {
      ReverseAt(j.visited, i);
    }
    forall e | e in w.pending && e.id == id ensures !IsToken(e) {
      var i :| 0 <= i < |w.pending| && w.pending[i] == e;
      TotalAtLeast(w.pending, i, TokenOf(id));
    }
  }

  /** When nothing is pending, every job that was generated has left. */
  lemma {:induction false} DrainedMeansLeft(c: Config, w: World, id: nat)
    requires RoutesOk(c, w, []) && w.pending == [] && id in w.jobs
    ensures id in w.left && HasReturned(c, w.jobs, id)
  {
    assert OneToken(w, [], id);
    assert Total([], TokenOf(id)) == 0;
    if id !in w.left { Absent(w.left, id); }
  }

  lemma {:induction false} Absent(s: seq<nat>, x: nat)
    requires x !in s
    ensures Occurrences(s, x) == 0
  {
    if s == [] {
    } else {
      Absent(s[..|s| - 1], x);
    }
  }
}
