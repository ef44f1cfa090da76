/** The event handlers and the event processor's main loop, which update the vertex properties
    and the event queue in place. Module Network specifies them. */
module Simulators {
  import opened Entries
  import opened RealSums
  import opened Servers
  import opened Network
  import opened NetworkServers
  import opened NetworkRoutes
  import opened NetworkRuns
  import opened EventQueues

  /** What the generators provide for one step. `pick` selects among the out-neighbours. */
  datatype Input = Input(service: real, gaps: seq<real>, pick: nat)

  /** The out-neighbour that a pick selects. */
  function Choice(g: Graph, v: int, pick: nat): int {
    if 0 <= v < |g| && g[v] != [] then g[v][pick % |g[v]|] else 0
  }

  predicate LegalInput(c: Config, x: Input) {
    x.service >= 0.0 && |x.gaps| == |c.graph| && forall i :: 0 <= i < |x.gaps| ==> x.gaps[i] >= 0.0
  }

  function DrawsOf(c: Config, e: Entry, x: Input): Draws {
    Draws(x.service, x.gaps, Choice(c.graph, e.destination, x.pick))
  }

  /** Why the processor's loop ended. */
  datatype Outcome = QueueEmpty | StopTimeReached(e: Entry) | QueueFailed | Unfinished

  function Zip(vertices: seq<Vertex>, pasts: seq<Past>): (s: seq<Server>)
    requires |vertices| == |pasts|
    ensures |s| == |vertices| && forall i :: 0 <= i < |s| ==> s[i] == Server(vertices[i], pasts[i])
  {
    seq(|vertices|, i requires 0 <= i < |vertices| => Server(vertices[i], pasts[i]))
  }

  /** The event of the step, at its corrected time, is an administrative one or not after the stop time. */
  ghost predicate Timely(w: World, a: Action, stopTime: real) {
    && a.index < |w.pending|
    && var e := Corrected(w.pending[a.index], w.now);
      e.origin == ADMIN_EVENT || e.arrival <= stopTime
  }

  /** The loop has taken out an event after the stop time and not handled it. */
  ghost predicate StopsAt(w: World, w': World, e: Entry, stopTime: real) {
    && e.origin != ADMIN_EVENT && e.arrival > stopTime
    && exists i: nat ::
         && i < |w.pending| && e == Corrected(w.pending[i], w.now)
         && w' == w.(pending := Without(w.pending, i), now := e.arrival)
  }

  /** What PostAnyEvent's handlers do for an arrival or a departure. */
  predicate Accounted(e: Entry) { e.kind.LastArrival? || e.kind.Arrival? || e.kind.Departure? }

  class Simulator {
    const config: Config
    var vertices: seq<Vertex>
    var nextAction: seq<int>
    const queue: EventQueue
    var uid: nat
    var oldTime: real
    ghost var pasts: seq<Past>
    ghost var jobs: map<nat, Job>
    ghost var left: seq<nat>

    ghost predicate Sizes()
      reads this
    {
      |vertices| == |pasts| == |nextAction| == |config.graph|
    }

    ghost function View(): World
      requires |vertices| == |pasts|
      reads this, queue
    {
      World(Zip(vertices, pasts), nextAction, queue.pending, uid, oldTime, jobs, left)
    }

    /** Tokens, routes and external arrivals are in order, and while the queue is, so is all else. */
    ghost predicate Valid()
      reads this, queue.Footprint(), queue.ladderQueue
    {
      && Sizes() && queue.Valid() && queue.Last() <= oldTime
      && FreeOk(config, View()) && (queue.inOrder ==> NetworkOk(config, View()))
    }

    constructor (config: Config)
      requires WellFormed(config.graph)
      ensures this.config == config && Valid() && Initial(config, View())
      ensures fresh(queue.Footprint())
    {
      hide EventQueue.Valid;
      var n := |config.graph|;
      this.config := config;
      vertices := seq(n, _ => NEW_VERTEX);
      nextAction := seq(n, _ => -1);
      queue := new EventQueue();
      uid := 1;
      oldTime := 0.0;
      pasts := seq(n, _ => NEW_PAST);
      jobs := map[];
      left := [];
      new;
      var _ := queue.Push(NewEntry(0, 0.0, 0.0, -99, ADMIN_EVENT, GenerateArrivals));
      InitialOk(config, View());
    }

    // ---- handlers ---------------------------------------------------------------------------
    // Each handler returns whether the queue took its events; where it refuses one, the source's
    // exception ends the main loop.

    /** EventGenerator::generateArrival. */
    method GenerateArrival(v: nat, start: real, gap: real) returns (ok: bool)
      requires Sizes() && queue.Valid() && start == oldTime
      modifies queue.Footprint(), this`uid, this`jobs
      ensures Sizes() && queue.Valid() && queue.Last() == old(queue.Last()) && (queue.inOrder ==> old(queue.inOrder))
      ensures start + gap >= queue.Last() ==> ok
      ensures ok ==> View() == AddExternal(old(View()), gap, v)
    {
      hide EventQueue.Valid;
      hide Zip, NewJob;
      ok := queue.Push(NewEntry(uid, 0.0, start + gap, v, EXTERNAL_EVENT, LastArrival));
      if !ok {
        return;
      }
      jobs := jobs[uid + 1 := NewJob(start + gap)];
      uid := uid + 1;
    }

    /** GenerateArrivalsAdminHandler. */
    method GenerateAll(start: real, gaps: seq<real>) returns (ok: bool)
      requires Sizes() && queue.Valid() && start == oldTime >= queue.Last()
      requires forall k :: 0 <= k < |gaps| ==> gaps[k] >= 0.0
      modifies queue.Footprint(), this`uid, this`jobs
      ensures Sizes() && queue.Valid() && queue.Last() == old(queue.Last()) && (queue.inOrder ==> old(queue.inOrder))
      ensures ok && View() == AddExternals(old(View()), gaps)
    {
      hide EventQueue.Valid;
      for k := 0 to |gaps|
        invariant queue.Valid() && queue.Last() == old(queue.Last()) && (queue.inOrder ==> old(queue.inOrder))
        invariant View() == AddExternals(old(View()), gaps[..k])
      {
        assert gaps[..k + 1][..k] == gaps[..k];
        ok := GenerateArrival(k, start, gaps[k]);
      }
      assert gaps[..|gaps|] == gaps;
      ok := true;
    }

    /** NumEventsHandler. */
    method CountArrival(v: nat)
      requires v < |vertices|
      modifies this`vertices
      ensures vertices == old(vertices)[v := old(vertices)[v].(numEvents := old(vertices)[v].numEvents + 1)]
    {
      vertices := vertices[v := vertices[v].(numEvents := vertices[v].numEvents + 1)];
    }

    /** ArrivalHandler: takes the server or joins its queue, and schedules the departure. */
    method ScheduleDeparture(e: Entry, service: real) returns (ok: bool)
      requires queue.Valid() && 0 <= e.destination < |vertices| && vertices[e.destination].numEvents > 0
      modifies queue.Footprint(), this`vertices, this`uid
      ensures queue.Valid() && queue.Last() == old(queue.Last()) && (queue.inOrder ==> old(queue.inOrder))
      ensures DepartureTime(old(vertices)[e.destination], e.arrival, service) >= queue.Last() ==> ok
      ensures |vertices| == old(|vertices|)
      ensures ok ==>
        var v := e.destination; var x := old(vertices)[v];
        && vertices == old(vertices)[v := Occupy(x.(numEvents := x.numEvents - 1), e.arrival, service)]
        && queue.pending == old(queue.pending) + [DepartureOf(x, e, service, old(uid))] && uid == old(uid) + 1
    {
      hide EventQueue.Valid;
      var v := e.destination;
      var x := vertices[v];
      var delay := 0.0;
      var entry := e.Copy(uid).PushHistory(e.origin, e.arrival);
      if x.busy {
        if x.serviceEnds - e.arrival < 0.0 {
          delay := 0.0;
        } else {
          delay := x.serviceEnds - e.arrival;
        }
        var departure := x.serviceEnds + service;
        x := x.(inQueue := x.inQueue + 1, serviceEnds := departure);
        entry := entry.Delayed(delay, departure, Departure);
      } else {
        var departure := e.arrival + service;
        x := x.(busy := true, serviceEnds := departure);
        entry := entry.Service(departure, Departure);
      }
      x := x.(averageDelay := RunningMean(x.numEvents, x.averageDelay, delay));
      vertices := vertices[v := x];
      ok := queue.Push(entry);
      uid := uid + 1;
    }

    /** DepartureHandler: frees the server or takes the next job, and passes the job on. */
    method PassOn(e: Entry, choice: int) returns (ok: bool)
      requires Sizes() && queue.Valid() && 0 <= e.destination < |vertices| && e.arrival >= queue.Last()
      modifies queue.Footprint(), this`vertices, this`uid
      ensures queue.Valid() && queue.Last() == old(queue.Last()) && (queue.inOrder ==> old(queue.inOrder))
      ensures ok && vertices == old(vertices)[e.destination := Release(old(vertices)[e.destination])]
      ensures queue.pending == old(queue.pending) + [Onward(config, old(View()), e, choice)] && uid == old(uid) + 1
    {
      hide EventQueue.Valid;
      var v := e.destination;
      var x := vertices[v];
      if x.inQueue == 0 {
        x := x.(busy := false);
      }
      if x.inQueue > 0 {
        x := x.(inQueue := x.inQueue - 1);
      }
      vertices := vertices[v := x];
      if |config.graph[v]| > 0 {
        var destination := choice;
        if config.learning && nextAction[v] >= 0 {
          destination := nextAction[v];
        }
        ok := queue.Push(e.Copy(uid).Depart(destination, Arrival));
      } else {
        ok := queue.Push(e.Copy(uid).Acknowledge(v, v, Ack));
      }
      uid := uid + 1;
    }

    /** RLResponseHandler's bookkeeping of the next action. */
    method StoreNextAction(v: nat, choice: int)
      requires Sizes() && v < |vertices|
      modifies this`nextAction
      ensures Sizes() && View() == Learn(config, old(View()), v, choice)
    {
      if config.learning {
        var action := 0;
        if |config.graph[v]| > 1 {
          action := choice;
        } else if |config.graph[v]| == 1 {
          action := config.graph[v][0];
        }
        nextAction := nextAction[v := action];
      }
    }

    /** AckHandler's 1-hop copies, for the in-neighbours other than `except`. */
    method TellOthers(e: Entry, except: int) returns (ok: bool)
      requires Sizes() && queue.Valid() && e.path != [] && e.arrivals != [] && e.arrival >= queue.Last()
      modifies queue.Footprint(), this`uid
      ensures queue.Valid() && queue.Last() == old(queue.Last()) && (queue.inOrder ==> old(queue.inOrder))
      ensures var told := Others(config.graph, e.destination, except, |config.graph|);
        ok && queue.pending == old(queue.pending) + OneHops(e, told, old(uid)) && uid == old(uid) + |told|
    {
      hide EventQueue.Valid;
      hide Others, OneHops, IsEdge;
      NoOthers(config.graph, e, except, uid);
      for u := 0 to |config.graph|
        invariant queue.Valid() && queue.Last() == old(queue.Last()) && (queue.inOrder ==> old(queue.inOrder))
        invariant var told := Others(config.graph, e.destination, except, u);
          queue.pending == old(queue.pending) + OneHops(e, told, old(uid)) && uid == old(uid) + |told|
      {
        OthersStep(config.graph, e, except, u, old(uid));
        if IsEdge(config.graph, u, e.destination) && u != except {
          ok := queue.Push(e.PopHistory().Copy(uid).Acknowledge(e.destination, u, Ack1Hop));
          uid := uid + 1;
        }
      }
      ok := true;
    }

    /** AckHandler, for acknowledgements that are not 1-hop copies. */
    method SendBack(e: Entry) returns (ok: bool)
      requires Sizes() && queue.Valid() && e.path != [] && e.arrivals != [] && e.arrival >= queue.Last()
      modifies queue.Footprint(), this`uid
      ensures queue.Valid() && queue.Last() == old(queue.Last()) && (queue.inOrder ==> old(queue.inOrder))
      ensures ok && uid == old(uid) + 1 + |Audience(config, e)|
      ensures queue.pending ==
        old(queue.pending) + [Backward(e, old(uid))] + OneHops(e, Audience(config, e), old(uid) + 1)
    {
      hide EventQueue.Valid;
      var destination := e.path[|e.path| - 1];
      var entry := e.PopHistory().Copy(uid);
      if destination == EXTERNAL_EVENT {
        entry := entry.LeaveSystem(EXTERNAL_EVENT, Leave);
      } else {
        entry := entry.Acknowledge(e.destination, destination, Ack);
      }
      ok := queue.Push(entry);
      uid := uid + 1;
      if config.collective {
        if destination != EXTERNAL_EVENT {
          ok := TellOthers(e, destination);
        }
      }
    }

    /** UtilisationHandler. */
    method UpdateUtilisation(e: Entry)
      requires Accounted(e) && 0 <= e.destination < |vertices|
      modifies this`vertices
      ensures var v := e.destination;
        vertices == old(vertices)[v := CountBusy(old(vertices)[v], e.arrival, !e.kind.Departure?)]
    {
      var v := e.destination;
      var x := vertices[v];
      var b := 0.0;
      if e.kind.LastArrival? || e.kind.Arrival? {
        if x.inQueue > 0 {
          if e.arrival - x.lastEvent >= 0.0 {
            b := e.arrival - x.lastEvent;
          }
        }
      } else {
        if e.arrival - x.lastEvent >= 0.0 {
          b := e.arrival - x.lastEvent;
        }
      }
      var busyTime := x.busyTime + b;
      vertices := vertices[v := x.(busyTime := busyTime, utilisation := Ratio(busyTime, e.arrival))];
    }

    /** ExpectedAverageEventInQueueHandler. */
    method UpdateQueueLength(e: Entry)
      requires Accounted(e) && 0 <= e.destination < |vertices|
      modifies this`vertices
      ensures var v := e.destination;
        vertices == old(vertices)[v := CountQueue(old(vertices)[v], e.arrival, !e.kind.Departure?)]
    {
      hide Ratio;
      var v := e.destination;
      var x := vertices[v];
      var q := 0.0;
      var waiting: int := x.inQueue;
      if e.kind.LastArrival? || e.kind.Arrival? {
        if x.inQueue > 0 {
          if e.arrival - x.lastEvent >= 0.0 {
            q := e.arrival - x.lastEvent;
            waiting := waiting - 1;
          }
        }
      } else {
        if e.arrival - x.lastEvent >= 0.0 {
          q := e.arrival - x.lastEvent;
          waiting := waiting + 1;
        }
      }
      TimesZero(waiting, x.inQueue + 1, x.inQueue - 1);
      var queueTime := x.queueTime + Times(waiting, q);
      vertices := vertices[v := x.(queueTime := queueTime, averageQueue := Ratio(queueTime, e.arrival))];
    }

    /** LastEventHandler. */
    method UpdateLastEvent(e: Entry)
      requires 0 <= e.destination < |vertices|
      modifies this`vertices
      ensures vertices == old(vertices)[e.destination := old(vertices)[e.destination].(lastEvent := e.arrival)]
    {
      vertices := vertices[e.destination := vertices[e.destination].(lastEvent := e.arrival)];
    }

    /** PostAnyEvent's handlers. */
    method PostAny(e: Entry)
      requires Accounted(e) ==> 0 <= e.destination < |vertices|
      modifies this`vertices
      ensures |vertices| == old(|vertices|)
      ensures Accounted(e) ==>
        var v := e.destination;
        vertices == old(vertices)[v := Account(old(vertices)[v], e.arrival, !e.kind.Departure?)]
      ensures !Accounted(e) ==> vertices == old(vertices)
    {
      hide CountBusy, CountQueue;
      if Accounted(e) {
        UpdateUtilisation(e);
        UpdateQueueLength(e);
        UpdateLastEvent(e);
      }
    }

    // ---- events -----------------------------------------------------------------------------

    /** Everything that happens on an arrival. */
    method Arrive(e: Entry, service: real) returns (ok: bool)
      requires Sizes() && queue.Valid() && 0 <= e.destination < |vertices|
      requires e.kind.LastArrival? || e.kind.Arrival?
      modifies queue.Footprint(), this`vertices, this`pasts, this`uid, this`jobs
      ensures Sizes() && queue.Valid() && queue.Last() == old(queue.Last()) && (queue.inOrder ==> old(queue.inOrder))
      ensures DepartureTime(old(vertices)[e.destination], e.arrival, service) >= queue.Last() ==> ok
      ensures ok ==> View() == HandleArrival(old(View()), e, service)
    {
      hide EventQueue.Valid;
      hide Zip, Admit, Occupy, Account, DepartureOf, Delay, DepartureTime, Visit, LogArrival;
      var v := e.destination;
      ghost var x, p := vertices[v], pasts[v];
      ZipAdmit(vertices, pasts, v, e.arrival, service);
      ok := Serve(e, service);
      if !ok {
        return;
      }
      jobs := jobs[e.id := Visit(JobOf(old(View()), e.id), v, e.arrival, Delay(x, e.arrival))];
      pasts := pasts[v := LogArrival(p, e.arrival, Delay(x, e.arrival), service, DepartureTime(x, e.arrival, service))];
    }

    /** The handlers of an arrival: the vertex counts and serves the job, and keeps its accounts. */
    method Serve(e: Entry, service: real) returns (ok: bool)
      requires queue.Valid() && 0 <= e.destination < |vertices|
      requires e.kind.LastArrival? || e.kind.Arrival?
      modifies queue.Footprint(), this`vertices, this`uid
      ensures queue.Valid() && queue.Last() == old(queue.Last()) && (queue.inOrder ==> old(queue.inOrder))
      ensures DepartureTime(old(vertices)[e.destination], e.arrival, service) >= queue.Last() ==> ok
      ensures |vertices| == old(|vertices|)
      ensures ok ==>
        var x := old(vertices)[e.destination];
        && vertices == old(vertices)[e.destination := Account(Occupy(x, e.arrival, service), e.arrival, true)]
        && queue.pending == old(queue.pending) + [DepartureOf(x, e, service, old(uid))] && uid == old(uid) + 1
    {
      hide EventQueue.Valid;
      hide Occupy, Account, DepartureOf;
      var v := e.destination;
      ghost var x := vertices[v];
      CountArrival(v);
      SameDeparture(x, e, service, uid);
      ok := ScheduleDeparture(e, service);
      if ok {
        PostAny(e);
        assert vertices == old(vertices)[v := Account(Occupy(x, e.arrival, service), e.arrival, true)];
      }
    }

    method Depart(e: Entry, choice: int) returns (ok: bool)
      requires Sizes() && queue.Valid() && 0 <= e.destination < |vertices|
      requires e.kind.Departure? && e.arrival >= queue.Last()
      modifies queue.Footprint(), this`vertices, this`pasts, this`uid
      ensures Sizes() && queue.Valid() && queue.Last() == old(queue.Last()) && (queue.inOrder ==> old(queue.inOrder))
      ensures ok && View() == HandleDeparture(config, old(View()), e, choice)
    {
      hide EventQueue.Valid;
      hide Release, Account, Onward;
      var v := e.destination;
      ghost var x, p := vertices[v], pasts[v];
      ok := PassOn(e, choice);
      PostAny(e);
      pasts := pasts[v := LogDeparture(p, e.arrival - x.lastEvent)];
      assert Zip(vertices, pasts) == old(Zip(vertices, pasts))[v := Discharge(Server(x, p), e.arrival)];
    }

    /** The acknowledged job's log grows before the handlers change the entry. */
    method Acknowledge(e: Entry, choice: int) returns (ok: bool)
      requires Sizes() && queue.Valid() && e.kind.Ack? && Handled(config, e) && e.arrival >= queue.Last()
      modifies queue.Footprint(), this`uid, this`jobs, this`nextAction
      ensures Sizes() && queue.Valid() && queue.Last() == old(queue.Last()) && (queue.inOrder ==> old(queue.inOrder))
      ensures ok && View() == HandleAck(config, old(View()), e, choice)
    {
      hide EventQueue.Valid;
      hide Backward, OneHops, Audience, NewAction;
      StoreNextAction(e.destination, choice);
      ok := SendBack(e);
      jobs := jobs[e.id := JobOf(old(View()), e.id).(acked := JobOf(old(View()), e.id).acked + [e.destination])];
    }

    /** The processor's switch on the event type. Only a departure can lie in the past. */
    method HandleEvent(e: Entry, x: Input) returns (ok: bool)
      requires Sizes() && queue.Valid() && Handled(config, e) && LegalInput(config, x)
      requires oldTime == e.arrival >= queue.Last()
      modifies queue.Footprint(), this`vertices, this`pasts, this`uid, this`jobs, this`nextAction, this`left
      ensures Sizes() && queue.Valid() && queue.Last() == old(queue.Last()) && (queue.inOrder ==> old(queue.inOrder))
      ensures (e.kind.LastArrival? || e.kind.Arrival? ==>
        DepartureTime(old(vertices)[e.destination], e.arrival, x.service) >= queue.Last()) ==> ok
      ensures ok ==> View() == Dispatch(config, old(View()), e, DrawsOf(config, e, x))
    {
      hide EventQueue.Valid;
      hide HandleArrival, HandleDeparture, HandleAck, Learn, AddExternal, AddExternals;
      var choice := Choice(config.graph, e.destination, x.pick);
      ok := true;
      match e.kind {
        case LastArrival =>
          ok := GenerateArrival(e.destination, e.arrival, x.gaps[e.destination]);
          if ok {
            ok := Arrive(e, x.service);
          }
        case Arrival =>
          ok := Arrive(e, x.service);
        case Departure =>
          ok := Depart(e, choice);
        case Ack =>
          ok := Acknowledge(e, choice);
        case Ack1Hop =>
          StoreNextAction(e.destination, choice);
        case Leave =>
          left := left + [e.id];
        case GenerateArrivals =>
          ok := GenerateAll(e.arrival, x.gaps);
        case Administrative =>
      }
    }

    // ---- the main loop ------------------------------------------------------------------------

    /** One turn of the loop: an event that is not beyond the stop time is handled. The queue can
        only refuse an event when it is out of order. */
    method Turn(stopTime: real, x: Input) returns (outcome: Outcome, ghost i: nat)
      requires Valid() && LegalInput(config, x)
      modifies this, queue.Footprint()
      ensures Sizes() && (queue.inOrder ==> old(queue.inOrder))
      ensures outcome.QueueEmpty? <==> old(queue.pending) == []
      ensures outcome.QueueEmpty? ==> View() == old(View())
      ensures outcome.QueueFailed? ==> !old(queue.inOrder)
      ensures !outcome.QueueEmpty? ==>
        i < |old(queue.pending)| && (old(queue.inOrder) ==> Minimal(old(queue.pending), i))
      ensures !outcome.QueueEmpty? ==>
        var e := Corrected(old(queue.pending)[i], old(oldTime));
        outcome.StopTimeReached? <==> e.origin != ADMIN_EVENT && e.arrival > stopTime
      ensures outcome.StopTimeReached? ==>
        var e := Corrected(old(queue.pending)[i], old(oldTime));
        && outcome.e == e
        && View() == old(View()).(pending := Without(old(queue.pending), i), now := e.arrival)
      ensures outcome.Unfinished? ==>
        var a := Action(i, DrawsOf(config, old(queue.pending)[i], x));
        && Valid() && Possible(config, old(View()), a) && Handled(config, old(queue.pending)[i])
        && View() == Step(config, old(View()), a)
    {
      hide EventQueue.Valid;
      hide NetworkOk, FreeOk, Dispatch, ServersOk, RoutesOk;
      i := 0;
      ghost var w := View();
      var r;
      r, i := queue.Dequeue();
      if r.None? {
        return QueueEmpty, i;
      }
      var e := r.value;
      ghost var a := Action(i, DrawsOf(config, e, x));
      InputIsLegal(config, w, a, x);
      FreeStepIsSafe(config, w, a);
      var newTime := e.arrival;
      if newTime < oldTime {
        newTime := oldTime + EPSILON;
        e := e.(arrival := newTime);
      }
      oldTime := newTime;
      if e.origin != ADMIN_EVENT && e.arrival > stopTime {
        outcome := StopTimeReached(e);
      } else {
        if queue.inOrder { StepIsSafe(config, w, a); }
        var ok := HandleEvent(e, x);
        outcome := if ok then Unfinished else QueueFailed;
      }
    }

    /** The main loop, on the ladder queue. It makes a run of module Network's machine, until the
        queue is empty, the stop time is passed, the queue refuses an event, or there are no more
        inputs. If no push takes the pushBack branch the run is in time order, every invariant
        holds throughout, and the queue refuses nothing. */
    method Process(stopTime: real, inputs: seq<Input>)
      returns (outcome: Outcome, ghost ws: seq<World>, ghost acts: seq<Action>)
      requires Valid() && forall k :: 0 <= k < |inputs| ==> LegalInput(config, inputs[k])
      modifies this, queue.Footprint()
      ensures IsFreeRun(config, ws, acts) && ws[0] == old(View()) && |acts| <= |inputs|
      ensures forall k: nat :: k < |ws| ==> FreeOk(config, ws[k])
      ensures queue.inOrder ==> IsRun(config, ws, acts) && !outcome.QueueFailed?
      ensures queue.inOrder ==> forall k: nat :: k < |ws| ==> NetworkOk(config, ws[k])
      ensures Sizes()
      ensures outcome.QueueEmpty? ==> View() == ws[|acts|] && queue.pending == []
      ensures outcome.Unfinished? ==> View() == ws[|acts|] && |acts| == |inputs|
      ensures forall k: nat :: k < |acts| ==> Timely(ws[k], acts[k], stopTime)
      ensures outcome.StopTimeReached? ==> StopsAt(ws[|acts|], View(), outcome.e, stopTime)
      ensures queue.inOrder && outcome.StopTimeReached? ==> forall e :: e in queue.pending ==> e.arrival > stopTime
    {
      hide EventQueue.Valid;
      hide NetworkOk, FreeOk, Step, Possible, Timely;
      ws, acts := [View()], [];
      assert WellFormed(config.graph) by { ValidGraph(config, View()); }
      for k := 0 to |inputs|
        invariant Valid() && IsFreeRun(config, ws, acts) && ws[0] == old(View())
        invariant |acts| == k && View() == ws[k]
        invariant queue.inOrder ==> InTimeOrder(ws, acts)
        invariant forall j: nat :: j < |acts| ==> Timely(ws[j], acts[j], stopTime)
        invariant forall j: nat :: j < |ws| ==> FreeOk(config, ws[j])
        invariant queue.inOrder ==> forall j: nat :: j < |ws| ==> NetworkOk(config, ws[j])
      {
        ghost var i;
        outcome, i := Turn(stopTime, inputs[k]);
        if !outcome.Unfinished? {
          if queue.inOrder && outcome.StopTimeReached? { NothingEarlier(config, ws[k], i, View()); }
          return;
        }
        ghost var a := Action(i, DrawsOf(config, ws[k].pending[i], inputs[k]));
        IsTimely(ws[k], a, stopTime);
        RunSnoc(config, ws, acts, a, View());
        if queue.inOrder { OrderSnoc(ws, acts, a, View()); }
        ws, acts := ws + [View()], acts + [a];
      }
      outcome := Unfinished;
    }
  }

  lemma {:induction false} ZipAdmit(vs: seq<Vertex>, ps: seq<Past>, v: nat, t: real, service: real)
    requires v < |vs| == |ps|
    ensures var x, p := vs[v], ps[v];
      Zip(vs[v := Account(Occupy(x, t, service), t, true)],
          ps[v := LogArrival(p, t, Delay(x, t), service, DepartureTime(x, t, service))])
      == Zip(vs, ps)[v := Admit(Server(x, p), t, service)]
  {
    hide Account, Occupy, LogArrival;
  }

  lemma {:induction false} NoOthers(g: Graph, e: Entry, except: int, uid: nat)
    requires e.path != [] && e.arrivals != []
    ensures Others(g, e.destination, except, 0) == [] && OneHops(e, [], uid) == []
  {
  }

  /** One more vertex is told, or it is not an in-neighbour. */
  lemma {:induction false} OthersStep(g: Graph, e: Entry, except: int, u: nat, uid: nat)
    requires e.path != [] && e.arrivals != [] && u < |g|
    ensures var told, more := Others(g, e.destination, except, u), Others(g, e.destination, except, u + 1);
      if IsEdge(g, u, e.destination) && u != except then
        && |more| == |told| + 1
        && OneHops(e, more, uid) == OneHops(e, told, uid)
             + [e.PopHistory().Copy(uid + |told|).Acknowledge(e.destination, u, Ack1Hop)]
      else more == told
  {
    hide IsEdge;
    var told := Others(g, e.destination, except, u);
    assert (told + [u])[..|told|] == told;
    assert told + [] == told;
  }

  lemma {:induction false} IsTimely(w: World, a: Action, stopTime: real)
    requires a.index < |w.pending|
    requires var e := Corrected(w.pending[a.index], w.now); !(e.origin != ADMIN_EVENT && e.arrival > stopTime)
    ensures Timely(w, a, stopTime)
  {
  }

  /** Where the earliest event lies after the stop time, so do all others. */
  lemma {:induction false} NothingEarlier(c: Config, w: World, i: nat, w': World)
    requires NetworkOk(c, w) && Minimal(w.pending, i)
    requires w' == w.(pending := Without(w.pending, i), now := Corrected(w.pending[i], w.now).arrival)
    ensures forall e :: e in w'.pending ==> e.arrival >= w'.now
  {
    NowAndPending(c, w);
  }

  lemma {:induction false} ValidGraph(c: Config, w: World)
    requires FreeOk(c, w)
    ensures WellFormed(c.graph)
  {
  }

  lemma {:induction false} RunSnoc(c: Config, ws: seq<World>, acts: seq<Action>, a: Action, w: World)
    requires IsFreeRun(c, ws, acts) && StepsTo(c, ws[|acts|], a, w)
    ensures IsFreeRun(c, ws + [w], acts + [a])
  {
    hide StepsTo;
    forall k: nat | k < |acts| + 1 ensures StepsTo(c, (ws + [w])[k], (acts + [a])[k], (ws + [w])[k + 1]) {
      if k < |acts| { assert StepsTo(c, ws[k], acts[k], ws[k + 1]); }
    }
  }

  lemma {:induction false} OrderSnoc(ws: seq<World>, acts: seq<Action>, a: Action, w: World)
    requires |ws| == |acts| + 1 && InTimeOrder(ws, acts) && Minimal(ws[|acts|].pending, a.index)
    ensures InTimeOrder(ws + [w], acts + [a])
  {
    hide Minimal;
    forall k: nat | k < |acts| + 1 ensures Minimal((ws + [w])[k].pending, (acts + [a])[k].index) {
      if k < |acts| { assert Minimal(ws[k].pending, acts[k].index); }
    }
  }

  lemma {:induction false} TimesZero(n: int, m: int, k: int)
    ensures Times(n, 0.0) == 0.0 && Times(m, 0.0) == 0.0 && Times(k, 0.0) == 0.0
  {
  }

  /** Counting the event first does not change the departure that is scheduled. */
  lemma {:induction false} SameDeparture(x: Vertex, e: Entry, service: real, uid: nat)
    ensures DepartureOf(x.(numEvents := x.numEvents + 1), e, service, uid) == DepartureOf(x, e, service, uid)
  {
  }

  lemma {:induction false} InputIsLegal(c: Config, w: World, a: Action, x: Input)
    requires a.index < |w.pending| && LegalInput(c, x)
    requires a.draws == DrawsOf(c, w.pending[a.index], x)
    ensures Possible(c, w, a)
  {
  }

  /** What the loop relies on: the event can be handled. */
  lemma {:induction false} FreeStepIsSafe(c: Config, w: World, a: Action)
    requires FreeOk(c, w) && Possible(c, w, a)
    ensures Sized(c, w) && Handled(c, w.pending[a.index]) && FreeOk(c, Step(c, w, a))
  {
    StepKeepsFree(c, w, a);
  }

  /** And in time order: it does not lie before the clock, nor does the departure it schedules. */
  lemma {:induction false} StepIsSafe(c: Config, w: World, a: Action)
    requires NetworkOk(c, w) && Enabled(c, w, a)
    ensures Sized(c, w) && Handled(c, w.pending[a.index]) && w.now <= w.pending[a.index].arrival
    ensures NetworkOk(c, Step(c, w, a))
    ensures var e := w.pending[a.index];
      e.kind.LastArrival? || e.kind.Arrival? ==>
        DepartureTime(w.servers[e.destination].vertex, e.arrival, a.draws.service) >= e.arrival
  {
    hide Step, FreeOk, Punctual;
    StepKeeps(c, w, a);
    var e := w.pending[a.index];
    if e.kind.LastArrival? || e.kind.Arrival? { DepartsLater(c, w, a); }
  }

  lemma {:induction false} DepartsLater(c: Config, w: World, a: Action)
    requires ServersOk(c, w) && Enabled(c, w, a) && 0 <= w.pending[a.index].destination < |c.graph|
    requires !w.pending[a.index].kind.Departure?
    ensures var e := w.pending[a.index];
      DepartureTime(w.servers[e.destination].vertex, e.arrival, a.draws.service) >= e.arrival
  {
    var e := w.pending[a.index];
    RemoveKeeps(c, w, a.index);
    AdmitDue(c, w.(pending := Without(w.pending, a.index), now := e.arrival), e, a.draws.service);
  }
}
