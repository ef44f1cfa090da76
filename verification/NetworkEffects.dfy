/** What one step does, event by event: which records it adds to the pending events, where a job is
    sent, who is told, what a vertex remembers, and what is left as it was. */
module NetworkEffects {
  import opened Entries
  import opened RealSums
  import opened Servers
  import opened Network
  import opened NetworkServers
  import opened NetworkRoutes
  import opened NetworkRuns

  /** A step that the handlers define. */
  ghost predicate Ready(c: Config, w: World, a: Action) {
    Possible(c, w, a) && Sized(c, w) && Handled(c, w.pending[a.index])
  }

  /** The step takes one event out and adds `added` behind the others. */
  ghost predicate Adds(w: World, i: nat, w': World, added: seq<Entry>)
    requires i < |w.pending|
  {
    w'.pending == w.pending[..i] + w.pending[i + 1..] + added
  }

  /** `x` carries the job of `e`, with the waiting time and the external arrival that `e` had. */
  ghost predicate SameJob(x: Entry, e: Entry) {
    x.id == e.id && x.delay == e.delay && x.externalArrival == e.externalArrival
  }

  ghost predicate SameStacks(x: Entry, e: Entry) {
    x.path == e.path && x.arrivals == e.arrivals
  }

  /** The stacks of `x` are those of `e` without their tops. */
  ghost predicate Popped(x: Entry, e: Entry) {
    && e.path != [] && e.arrivals != []
    && x.path == e.path[..|e.path| - 1] && x.arrivals == e.arrivals[..|e.arrivals| - 1]
  }

  // ---- the clock -----------------------------------------------------------------------------

  /** An event that is not in the past is handled at its time, any other one just after the clock. */
  lemma {:induction false} ClockMoves(c: Config, w: World, a: Action)
    requires Ready(c, w, a)
    ensures var t, now := w.pending[a.index].arrival, Step(c, w, a).now;
      && (t >= w.now ==> now == t)
      && (t < w.now ==> (now - w.now) * 4503599627370496.0 == 1.0)
  {
    StepClock(c, w, a);
  }

  // ---- departures ----------------------------------------------------------------------------

  /** A departing job is sent on to the stored next action if learning is on and there is one, to
      the out-neighbour drawn otherwise; at a vertex without out-edges its acknowledgement starts. */
  lemma {:induction false} DepartureIsRouted(c: Config, w: World, a: Action) returns (x: Entry)
    requires Ready(c, w, a) && w.pending[a.index].kind.Departure?
    ensures var e, w' := w.pending[a.index], Step(c, w, a); var v := e.destination;
      && Adds(w, a.index, w', [x]) && SameJob(x, e) && SameStacks(x, e) && x.arrival == w'.now
      && (c.graph[v] != [] ==>
        && x.kind == Arrival && x.origin == e.origin
        && x.destination == if c.learning && w.nextAction[v] >= 0 then w.nextAction[v] else a.draws.choice)
      && (c.graph[v] == [] ==> x.kind == Ack && x.origin == x.destination == v)
      && w'.nextAction == w.nextAction && w'.jobs == w.jobs && w'.left == w.left
  {
    hide Discharge;
    x := Step(c, w, a).pending[|w.pending| - 1];
  }

  // ---- arrivals ------------------------------------------------------------------------------

  /** An arriving job will depart from where it arrived. It remembers where it came from and when. */
  ghost predicate Stays(d: Entry, e: Entry, now: real) {
    && d.kind == Departure && d.id == e.id && d.externalArrival == e.externalArrival
    && d.origin == d.destination == e.destination
    && d.path == e.path + [e.origin] && d.arrivals == e.arrivals + [now]
  }

  /** A new job for vertex `v`: no other event carries its id, and it is due at `t`. */
  ghost predicate IsExternal(x: Entry, id: nat, v: int, t: real) {
    && x.kind == LastArrival && x.id == id && x.destination == v && x.origin == EXTERNAL_EVENT
    && x.arrival == x.externalArrival == t && x.delay == 0.0 && x.path == [] && x.arrivals == []
  }

  /** The log of a job grows by a visit to `v`, where it has to wait. */
  ghost predicate Visits(j: Job, j': Job, v: int, now: real, wait: real) {
    && j'.visited == j.visited + [v] && j'.times == j.times + [now] && j'.waited == j.waited + wait
    && j'.acked == j.acked && j'.external == j.external
  }

  /** The events of an arrival: its departure, and behind an external one the next for its vertex, at
      the clock plus the drawn gap. The log grows by the visit. */
  lemma {:induction false} ArrivalIsLogged(c: Config, w: World, a: Action) returns (x: Entry, d: Entry)
    requires Ready(c, w, a) && (w.pending[a.index].kind.LastArrival? || w.pending[a.index].kind.Arrival?)
    ensures var e, w' := w.pending[a.index], Step(c, w, a); var v := e.destination;
      && Adds(w, a.index, w', if e.kind.LastArrival? then [x, d] else [d])
      && Stays(d, e, w'.now)
      && (e.kind.LastArrival? ==>
        && IsExternal(x, w.uid + 1, v, w'.now + a.draws.gaps[v])
        && (e.id != x.id ==> x.id in w'.jobs && w'.jobs[x.id] == NewJob(x.arrival)))
      && (e.id in w.jobs && (e.kind.LastArrival? ==> e.id != x.id) ==>
        e.id in w'.jobs && Visits(w.jobs[e.id], w'.jobs[e.id], v, w'.now, d.delay - e.delay))
      && w'.nextAction == w.nextAction && w'.left == w.left
      && w'.servers[v].past.arrivals == w.servers[v].past.arrivals + [w'.now]
      && w'.servers[v].past.services == w.servers[v].past.services + [a.draws.service]
  {
    hide Account, Delay, DepartureTime;
    var e, w', n := w.pending[a.index], Step(c, w, a), |w.pending|;
    d := if e.kind.LastArrival? then w'.pending[n] else w'.pending[n - 1];
    x := w'.pending[n - 1];
    DelayOnlyWhenBusy(w.servers[e.destination].vertex, w'.now);
  }

  lemma {:induction false} DelayOnlyWhenBusy(v: Vertex, t: real)
    ensures !v.busy ==> Delay(v, t) == 0.0
  {
  }

  /** When the server is free for the next job: when the last one departs. */
  function FreeFrom(p: Past, t: real): real {
    if p.departures == [] then t else Max(t, p.departures[|p.departures| - 1])
  }

  /** In time order a job departs when the jobs before it have departed and then its service, as
      drawn, is over; what it waits is added to its delay. */
  lemma {:induction false} ArrivalIsServed(c: Config, w: World, a: Action)
    requires ServersOk(c, w) && Enabled(c, w, a) && Handled(c, w.pending[a.index])
    requires w.pending[a.index].kind.LastArrival? || w.pending[a.index].kind.Arrival?
    ensures Sized(c, w)
    ensures var e, w' := w.pending[a.index], Step(c, w, a);
      var free, d := FreeFrom(w.servers[e.destination].past, e.arrival), w'.pending[|w'.pending| - 1];
      && w'.pending != [] && w'.now == e.arrival
      && d.arrival == free + a.draws.service && d.delay == e.delay + (free - e.arrival)
  {
    hide Account, Delay, DepartureTime, Consistent, FreeFrom;
    var e := w.pending[a.index];
    NowAndPending(c, w);
    RemoveKeeps(c, w, a.index);
    ServiceFollows(c, w.(pending := Without(w.pending, a.index), now := e.arrival), e.destination, a.draws.service);
    DelayOnlyWhenBusy(w.servers[e.destination].vertex, e.arrival);
  }

  /** What the vertex keeps is enough to find the time from which the server is free. */
  lemma {:induction false} ServiceFollows(c: Config, w: World, v: nat, service: real)
    requires ServersOk(c, w) && v < |c.graph|
    ensures var s := w.servers[v];
      && DepartureTime(s.vertex, w.now, service) == FreeFrom(s.past, w.now) + service
      && Delay(s.vertex, w.now) == FreeFrom(s.past, w.now) - w.now
  {
    var s := w.servers[v];
    var n := |s.past.departures|;
    assert ServerOk(s, v, w.pending, w.now);
    if s.vertex.busy { DueInFuture(c, w, v, n - 1); }
  }

  /** The vertices at which nothing arrives and from which nothing departs keep their state. */
  lemma {:induction false} OthersAreIdle(c: Config, w: World, a: Action, u: nat)
    requires Ready(c, w, a) && u < |c.graph|
    requires var e := w.pending[a.index];
      u == e.destination ==> !e.kind.LastArrival? && !e.kind.Arrival? && !e.kind.Departure?
    ensures u < |Step(c, w, a).servers| && Step(c, w, a).servers[u] == w.servers[u]
  {
    hide Admit, Discharge;
    GeneratedKeep(w.(pending := Without(w.pending, a.index),
                     now := Corrected(w.pending[a.index], w.now).arrival), a.draws.gaps);
  }

  lemma {:induction false} GeneratedKeep(w: World, gaps: seq<real>)
    ensures var w' := AddExternals(w, gaps);
      w'.servers == w.servers && w'.nextAction == w.nextAction && w'.left == w.left && w'.now == w.now
  {
    if gaps == [] {
    } else {
      GeneratedKeep(w, gaps[..|gaps| - 1]);
    }
  }

  // ---- external arrivals ---------------------------------------------------------------------

  /** The event that starts them schedules one new job for each vertex, at the clock plus the gap
      drawn for that vertex. */
  lemma {:induction false} ExternalsAreGenerated(c: Config, w: World, a: Action) returns (xs: seq<Entry>)
    requires Ready(c, w, a) && w.pending[a.index].kind.GenerateArrivals?
    ensures var w' := Step(c, w, a);
      && Adds(w, a.index, w', xs) && |xs| == |c.graph|
      && (forall v: nat :: v < |xs| ==>
        && IsExternal(xs[v], w.uid + 1 + v, v, w'.now + a.draws.gaps[v])
        && xs[v].id in w'.jobs && w'.jobs[xs[v].id] == NewJob(xs[v].arrival))
      && w'.nextAction == w.nextAction && w'.left == w.left
  {
    var now := Corrected(w.pending[a.index], w.now).arrival;
    var w1 := w.(pending := Without(w.pending, a.index), now := now);
    GeneratedKeep(w1, a.draws.gaps);
    xs := Generated(w1, a.draws.gaps);
  }

  lemma {:induction false} Generated(w: World, gaps: seq<real>) returns (xs: seq<Entry>)
    ensures var w' := AddExternals(w, gaps);
      && w'.pending == w.pending + xs && |xs| == |gaps| && w'.uid == w.uid + |gaps| && w'.now == w.now
      && (forall v: nat :: v < |xs| ==>
        && IsExternal(xs[v], w.uid + 1 + v, v, w.now + gaps[v])
        && xs[v].id in w'.jobs && w'.jobs[xs[v].id] == NewJob(xs[v].arrival))
  {
    xs := [];
    if gaps != [] {
      var n := |gaps| - 1;
      var front := Generated(w, gaps[..n]);
      var w1 := AddExternals(w, gaps[..n]);
      xs := front + [External(w1.uid, w1.now, gaps[n], n)];
    }
  }

  // ---- acknowledgements ----------------------------------------------------------------------

  /** The acknowledgement of an acknowledgement: to the vertex on top of the stack, or out of the
      system if there the job had come from outside. */
  ghost predicate IsBackward(b: Entry, e: Entry, to: int, now: real) {
    && SameJob(b, e) && Popped(b, e) && b.arrival == now && b.origin == e.destination && b.destination == to
    && b.kind == if to == EXTERNAL_EVENT then Leave else Ack
  }

  /** A 1-hop copy for whoever else could have sent the job. */
  ghost predicate IsHop(h: Entry, e: Entry, now: real) {
    SameJob(h, e) && Popped(h, e) && h.arrival == now && h.origin == e.destination && h.kind == Ack1Hop
  }

  /** 1-hop acknowledgements of the job for vertex `u`. */
  function HopTo(id: nat, u: int): Entry -> nat {
    (x: Entry) => if x.kind.Ack1Hop? && x.id == id && x.destination == u then 1 else 0
  }

  function HopsAdded(w: World, w': World, id: nat, u: int): int {
    Total(w'.pending, HopTo(id, u)) - Total(w.pending, HopTo(id, u))
  }

  /** Is `u` told by a 1-hop copy: another in-neighbour, where the flag is on and the job goes on? */
  ghost predicate IsTold(c: Config, v: int, to: int, u: int) {
    c.collective && to != EXTERNAL_EVENT && IsEdge(c.graph, u, v) && u != to
  }

  /** An acknowledgement goes one hop back, and for each vertex that is to be told, and no other,
      there is one more 1-hop copy. */
  lemma {:induction false} AckIsPassedOn(c: Config, w: World, a: Action) returns (b: Entry, hops: seq<Entry>)
    requires Ready(c, w, a) && w.pending[a.index].kind.Ack?
    ensures var e, w' := w.pending[a.index], Step(c, w, a); var to := e.path[|e.path| - 1];
      && Adds(w, a.index, w', [b] + hops) && IsBackward(b, e, to, w'.now)
      && (forall h :: h in hops ==> IsHop(h, e, w'.now))
      && (forall u: int :: HopsAdded(w, w', e.id, u) == if IsTold(c, e.destination, to, u) then 1 else 0)
      && w'.servers == w.servers && w'.left == w.left
      && (e.id in w.jobs ==>
        var j := w.jobs[e.id];
        e.id in w'.jobs && w'.jobs[e.id] == j.(acked := j.acked + [e.destination]))
  {
    hide Total, HopTo, IsTold, NewAction;
    var e0, w' := w.pending[a.index], Step(c, w, a);
    var e, rest := Corrected(e0, w.now), Without(w.pending, a.index);
    var to := e.path[|e.path| - 1];
    b, hops := Backward(e, w.uid), OneHops(e, Audience(c, e), w.uid + 1);
    assert w'.pending == rest + [b] + hops == rest + ([b] + hops);
    HopsAreCopies(e, Audience(c, e), w.uid + 1);
    forall u: int ensures HopsAdded(w, w', e0.id, u) == if IsTold(c, e0.destination, to, u) then 1 else 0 {
      HopsCounted(c, w.pending, a.index, e, b, w.uid + 1, u);
    }
  }

  lemma {:induction false} HopsCounted(
    c: Config, p: seq<Entry>, i: nat, e: Entry, b: Entry, uid: nat, u: int)
    requires i < |p| && !p[i].kind.Ack1Hop? && !b.kind.Ack1Hop? && e.path != [] && e.arrivals != []
    ensures Total(Without(p, i) + [b] + OneHops(e, Audience(c, e), uid), HopTo(e.id, u))
      == Total(p, HopTo(e.id, u)) + if IsTold(c, e.destination, e.path[|e.path| - 1], u) then 1 else 0
  {
    hide Total, HopTo, IsTold, Audience, OneHops;
    var rest, hops := Without(p, i), OneHops(e, Audience(c, e), uid);
    TotalWithout(p, i, HopTo(e.id, u));
    TotalAppend(rest + [b], hops, HopTo(e.id, u));
    TotalAppend(rest, [b], HopTo(e.id, u));
    TotalOne(b, HopTo(e.id, u));
    NoHops(p[i], b, e.id, u);
    AudienceTotal(c, e, uid, u);
  }

  lemma {:induction false} NoHops(x: Entry, y: Entry, id: nat, u: int)
    ensures !x.kind.Ack1Hop? ==> HopTo(id, u)(x) == 0
    ensures !y.kind.Ack1Hop? ==> HopTo(id, u)(y) == 0
  {
  }

  lemma {:induction false} HopsAreCopies(e: Entry, targets: seq<nat>, uid: nat)
    requires e.path != [] && e.arrivals != []
    ensures forall h :: h in OneHops(e, targets, uid) ==> IsHop(h, e, e.arrival)
  {
    if targets == [] {
    } else {
      HopsAreCopies(e, targets[..|targets| - 1], uid);
    }
  }

  lemma {:induction false} AudienceTotal(c: Config, e: Entry, uid: nat, u: int)
    requires e.path != [] && e.arrivals != []
    ensures Total(OneHops(e, Audience(c, e), uid), HopTo(e.id, u))
      == if IsTold(c, e.destination, e.path[|e.path| - 1], u) then 1 else 0
  {
    hide Total, OneHops;
    OthersTotal(c.graph, e, e.path[|e.path| - 1], |c.graph|, uid, u);
    NobodyTold(e, uid, u);
  }

  lemma {:induction false} NobodyTold(e: Entry, uid: nat, u: int)
    requires e.path != [] && e.arrivals != []
    ensures Total(OneHops(e, [], uid), HopTo(e.id, u)) == 0
  {
  }

  /** Among the first `k` vertices every in-neighbour but the excepted one gets one copy. */
  lemma {:induction false} OthersTotal(g: Graph, e: Entry, except: int, k: nat, uid: nat, u: int)
    requires k <= |g| && e.path != [] && e.arrivals != []
    ensures Total(OneHops(e, Others(g, e.destination, except, k), uid), HopTo(e.id, u))
      == if u < k && IsEdge(g, u, e.destination) && u != except then 1 else 0
  {
    hide Total;
    if k == 0 {
      NobodyTold(e, uid, u);
    } else {
      var told, all := Others(g, e.destination, except, k - 1), Others(g, e.destination, except, k);
      OthersTotal(g, e, except, k - 1, uid, u);
      if all != told {
        assert all == told + [k - 1] && all[..|told|] == told;
        HopsSize(e, told, uid);
        HopsSize(e, all, uid);
        var h := OneHops(e, all, uid)[|told|];
        TotalAppend(OneHops(e, told, uid), [h], HopTo(e.id, u));
        TotalOne(h, HopTo(e.id, u));
      }
    }
  }

  lemma {:induction false} HopsSize(e: Entry, targets: seq<nat>, uid: nat)
    requires e.path != [] && e.arrivals != []
    ensures |OneHops(e, targets, uid)| == |targets|
  {
    if targets == [] {
    } else {
      HopsSize(e, targets[..|targets| - 1], uid);
    }
  }

  // ---- what a vertex remembers ---------------------------------------------------------------

  /** Acknowledgements of both kinds. */
  predicate Teaches(e: Entry) { e.kind.Ack? || e.kind.Ack1Hop? }

  /** With learning on, an acknowledged vertex remembers the action drawn for it if it has several
      out-edges, its only neighbour if it has one, 0 if it has none; all others remember what they did. */
  lemma {:induction false} ActionIsStored(c: Config, w: World, a: Action)
    requires Ready(c, w, a)
    ensures var e, w' := w.pending[a.index], Step(c, w, a);
      && |w'.nextAction| == |w.nextAction|
      && (forall u: nat :: u < |c.graph| && !(c.learning && Teaches(e) && u == e.destination) ==>
        w'.nextAction[u] == w.nextAction[u])
      && (c.learning && Teaches(e) ==>
        w'.nextAction[e.destination] ==
          if |c.graph[e.destination]| == 0 then 0
          else if |c.graph[e.destination]| == 1 then c.graph[e.destination][0]
          else a.draws.choice)
  {
    hide Admit, Discharge, Onward, Audience, OneHops, Backward, DepartureOf;
    GeneratedKeep(w.(pending := Without(w.pending, a.index),
                     now := Corrected(w.pending[a.index], w.now).arrival), a.draws.gaps);
  }

  /** 1-hop copies, leaving jobs and other administrative events add no events, and change no server
      and no route; a leaving job is counted. */
  lemma {:induction false} OthersAddNothing(c: Config, w: World, a: Action)
    requires Ready(c, w, a)
    requires var k := w.pending[a.index].kind; k.Ack1Hop? || k.Leave? || k.Administrative?
    ensures var e, w' := w.pending[a.index], Step(c, w, a);
      && Adds(w, a.index, w', []) && w'.servers == w.servers && w'.jobs == w.jobs
      && w'.left == if e.kind.Leave? then w.left + [e.id] else w.left
  {
    assert Without(w.pending, a.index) + [] == Without(w.pending, a.index);
  }

  // ---- the numbers of the records ------------------------------------------------------------

  /** The records are numbered one by one from `uid` on. */
  ghost predicate Numbered(xs: seq<Entry>, uid: nat) {
    forall k :: 0 <= k < |xs| ==> xs[k].gid == uid + 1 + k
  }

  /** Every record that a step adds gets the next number. */
  lemma {:induction false} RecordsAreNumbered(c: Config, w: World, a: Action) returns (xs: seq<Entry>)
    requires Ready(c, w, a)
    ensures var w' := Step(c, w, a);
      Adds(w, a.index, w', xs) && Numbered(xs, w.uid) && w'.uid == w.uid + |xs|
  {
    hide Dispatch, Audience;
    var e, rest := Corrected(w.pending[a.index], w.now), Without(w.pending, a.index);
    var w1 := w.(pending := rest, now := e.arrival);
    xs := DispatchNumbers(c, w1, e, a.draws);
  }

  lemma {:induction false} DispatchNumbers(c: Config, w: World, e: Entry, d: Draws) returns (xs: seq<Entry>)
    requires Sized(c, w) && Handled(c, e) && |d.gaps| == |c.graph|
    ensures var w' := Dispatch(c, w, e, d);
      w'.pending == w.pending + xs && Numbered(xs, w.uid) && w'.uid == w.uid + |xs|
  {
    hide Admit, Discharge, Audience, Visit;
    var w', n := Dispatch(c, w, e, d), |w.pending|;
    xs := [];
    match e.kind
    case LastArrival => xs := w'.pending[n..];
    case Arrival => xs := w'.pending[n..];
    case Departure => xs := w'.pending[n..];
    case Ack =>
      HopsAreNumbered(e, Audience(c, e), w.uid + 1);
      xs := [Backward(e, w.uid)] + OneHops(e, Audience(c, e), w.uid + 1);
    case GenerateArrivals =>
      ExternalsAreNumbered(w, d.gaps);
      xs := w'.pending[n..];
    case _ =>
  }

  lemma {:induction false} HopsAreNumbered(e: Entry, targets: seq<nat>, uid: nat)
    requires e.path != [] && e.arrivals != []
    ensures |OneHops(e, targets, uid)| == |targets| && Numbered(OneHops(e, targets, uid), uid)
  {
    if targets == [] {
    } else {
      HopsAreNumbered(e, targets[..|targets| - 1], uid);
    }
  }

  lemma {:induction false} ExternalsAreNumbered(w: World, gaps: seq<real>)
    ensures var w' := AddExternals(w, gaps); var n := |w.pending|;
      && |w'.pending| == n + |gaps| && w'.pending[..n] == w.pending
      && w'.uid == w.uid + |gaps| && Numbered(w'.pending[n..], w.uid)
  {
    if gaps == [] {
    } else {
      ExternalsAreNumbered(w, gaps[..|gaps| - 1]);
    }
  }

  /** The pending events, in the order in which they were pushed, have rising numbers. */
  ghost predicate InGidOrder(w: World) {
    && (forall i, j :: 0 <= i < j < |w.pending| ==> w.pending[i].gid < w.pending[j].gid)
    && forall i :: 0 <= i < |w.pending| ==> w.pending[i].gid <= w.uid
  }

  lemma {:induction false} StepKeepsGidOrder(c: Config, w: World, a: Action)
    requires Ready(c, w, a) && InGidOrder(w)
    ensures InGidOrder(Step(c, w, a))
  {
    hide Step;
    var xs := RecordsAreNumbered(c, w, a);
    var i, n := a.index, |w.pending|;
    var p := Step(c, w, a).pending;
    forall k | 0 <= k < |p|
      ensures p[k] == if k < i then w.pending[k] else if k < n - 1 then w.pending[k + 1] else xs[k - (n - 1)]
    {
    }
  }

  /** In every run from the start no two pending events have the same number: ties in time are broken
      by the order in which events were pushed. */
  lemma {:induction false} GidsRise(c: Config, ws: seq<World>, acts: seq<Action>, n: nat)
    requires IsFreeRun(c, ws, acts) && Initial(c, ws[0]) && n <= |acts|
    ensures InGidOrder(ws[n])
  {
    hide FreeOk, Step, Possible, Handled;
    if n == 0 {
    } else {
      GidsRise(c, ws, acts, n - 1);
      FreeRunsAreSafe(c, ws, acts, n);
      StepKeepsGidOrder(c, ws[n - 1], acts[n - 1]);
    }
  }

  // ---- over whole runs -----------------------------------------------------------------------

  /** The last action that was drawn for `v` when it was acknowledged; -1 if it never was. */
  ghost function LastTaught(ws: seq<World>, acts: seq<Action>, n: nat, v: nat): int
    requires |ws| == |acts| + 1 && n <= |acts|
  {
    if n == 0 then -1
    else
      var w, a := ws[n - 1], acts[n - 1];
      if a.index < |w.pending| && Teaches(w.pending[a.index]) && w.pending[a.index].destination == v
      then a.draws.choice else LastTaught(ws, acts, n - 1, v)
  }

  /** In every run from the start, with learning on, a vertex with several out-edges remembers the
      last action drawn for it. */
  lemma {:induction false} RemembersLastTaught(c: Config, ws: seq<World>, acts: seq<Action>, n: nat, v: nat)
    requires IsFreeRun(c, ws, acts) && Initial(c, ws[0]) && n <= |acts|
    requires c.learning && v < |c.graph| && |c.graph[v]| > 1
    ensures |ws[n].nextAction| == |c.graph| && ws[n].nextAction[v] == LastTaught(ws, acts, n, v)
  {
    hide FreeOk, Step, Possible, Handled;
    if n == 0 {
      assert ws[0].nextAction[v] == -1;
    } else {
      RemembersLastTaught(c, ws, acts, n - 1, v);
      FreeRunsAreSafe(c, ws, acts, n);
      ActionIsStored(c, ws[n - 1], acts[n - 1]);
      InBounds(c, ws[n - 1], acts[n - 1]);
    }
  }

  lemma {:induction false} InBounds(c: Config, w: World, a: Action)
    requires Possible(c, w, a)
    ensures a.index < |w.pending|
  {
  }

  /** So every job leaves such a vertex for the neighbour that was last learned there, or, before
      anything was, for the one drawn for it. */
  lemma {:induction false} JobsFollowLearning(c: Config, ws: seq<World>, acts: seq<Action>, n: nat) returns (x: Entry)
    requires IsFreeRun(c, ws, acts) && Initial(c, ws[0]) && n < |acts| && c.learning
    requires acts[n].index < |ws[n].pending| && ws[n].pending[acts[n].index].kind.Departure?
    requires var v := ws[n].pending[acts[n].index].destination; 0 <= v < |c.graph| && |c.graph[v]| > 1
    ensures var e := ws[n].pending[acts[n].index]; var last := LastTaught(ws, acts, n, e.destination);
      && Adds(ws[n], acts[n].index, ws[n + 1], [x]) && x.kind == Arrival && SameJob(x, e)
      && x.destination == if last >= 0 then last else acts[n].draws.choice
  {
    hide FreeOk, Step, Possible, Handled;
    RemembersLastTaught(c, ws, acts, n, ws[n].pending[acts[n].index].destination);
    FreeRunsAreSafe(c, ws, acts, n + 1);
    x := DepartureIsRouted(c, ws[n], acts[n]);
  }
}
