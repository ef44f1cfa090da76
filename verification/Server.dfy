/** One vertex of the network: a first-come first-served single server, kept as a busy flag, a
    queue length and the time its last service ends. The record `Past` logs every arrival the
    server has seen, so that the counters can be compared with what they count. */
module Servers {
  import opened RealSums

  /** The vertex properties that the event handlers update. */
  datatype Vertex = Vertex(
    busy: bool, inQueue: nat, serviceEnds: real, numEvents: nat, averageDelay: real,
    busyTime: real, utilisation: real, queueTime: real, averageQueue: real, lastEvent: real)

  const NEW_VERTEX := Vertex(false, 0, 0.0, 0, 0.0, 0.0, 0.0, 0.0, 0.0, 0.0)

  /** One element for each arrival so far; the first `served` of them have departed. `lone` logs, for
      each departure that left nobody behind, the time since the event before it. */
  datatype Past = Past(arrivals: seq<real>, delays: seq<real>, starts: seq<real>,
                       services: seq<real>, departures: seq<real>, served: nat, lone: seq<real>)

  datatype Server = Server(vertex: Vertex, past: Past)

  const NEW_PAST := Past([], [], [], [], [], 0, [])

  // ---- the handlers' updates -----------------------------------------------------------------

  function Delay(v: Vertex, t: real): real {
    if v.busy then if v.serviceEnds - t < 0.0 then 0.0 else v.serviceEnds - t
    else 0.0
  }

  function DepartureTime(v: Vertex, t: real, service: real): real {
    (if v.busy then v.serviceEnds else t) + service
  }

  /** NumEventsHandler and ArrivalHandler. */
  function Occupy(v: Vertex, t: real, service: real): Vertex {
    v.(numEvents := v.numEvents + 1,
       inQueue := if v.busy then v.inQueue + 1 else v.inQueue,
       serviceEnds := DepartureTime(v, t, service),
       busy := true,
       averageDelay := RunningMean(v.numEvents + 1, v.averageDelay, Delay(v, t)))
  }

  /** The vertex part of DepartureHandler. */
  function Release(v: Vertex): Vertex {
    if v.inQueue == 0 then v.(busy := false) else v.(inQueue := v.inQueue - 1)
  }

  /** Division as the source uses it at positive times. */
  function Ratio(a: real, b: real): real { if b == 0.0 then 0.0 else a / b }

  lemma {:induction false} RatioOfZero()
    ensures Ratio(0.0, 0.0) == 0.0
  {
  }

  function Since(v: Vertex, t: real): real { if t - v.lastEvent >= 0.0 then t - v.lastEvent else 0.0 }

  /** UtilisationHandler's b_i, after the arrival or departure has been handled. */
  function BusyIncrement(v: Vertex, t: real, arrival: bool): real {
    if arrival && v.inQueue == 0 then 0.0 else Since(v, t)
  }

  /** ExpectedAverageEventInQueueHandler's q_i. */
  function QueueIncrement(v: Vertex, t: real, arrival: bool): real {
    if arrival then if v.inQueue > 0 then Times(v.inQueue - 1, Since(v, t)) else 0.0
    else Times(v.inQueue + 1, Since(v, t))
  }

  /** UtilisationHandler. */
  function CountBusy(v: Vertex, t: real, arrival: bool): Vertex {
    var b := v.busyTime + BusyIncrement(v, t, arrival);
    v.(busyTime := b, utilisation := Ratio(b, t))
  }

  /** ExpectedAverageEventInQueueHandler. */
  function CountQueue(v: Vertex, t: real, arrival: bool): Vertex {
    var q := v.queueTime + QueueIncrement(v, t, arrival);
    v.(queueTime := q, averageQueue := Ratio(q, t))
  }

  /** The three handlers of PostAnyEvent, in the order in which they are attached. */
  function Account(v: Vertex, t: real, arrival: bool): Vertex {
    CountQueue(CountBusy(v, t, arrival), t, arrival).(lastEvent := t)
  }

  function LogArrival(p: Past, t: real, delay: real, service: real, departure: real): Past {
    Past(p.arrivals + [t], p.delays + [delay], p.starts + [t + delay], p.services + [service],
         p.departures + [departure], p.served, p.lone)
  }

  /** `gap` is the time since the event before the departure. */
  function LogDeparture(p: Past, gap: real): Past {
    p.(served := p.served + 1, lone := if |p.arrivals| == p.served + 1 then p.lone + [gap] else p.lone)
  }

  function Admit(s: Server, t: real, service: real): Server {
    Server(Account(Occupy(s.vertex, t, service), t, true),
           LogArrival(s.past, t, Delay(s.vertex, t), service, DepartureTime(s.vertex, t, service)))
  }

  function Discharge(s: Server, t: real): Server {
    Server(Account(Release(s.vertex), t, false), LogDeparture(s.past, t - s.vertex.lastEvent))
  }

  // ---- what the log says ------------------------------------------------------------------

  ghost predicate LogLengths(p: Past) {
    && |p.arrivals| == |p.delays| == |p.starts| == |p.services| == |p.departures|
    && p.served <= |p.arrivals|
  }

  /** A server that has seen no events. */
  ghost predicate IsNew(s: Server) {
    && !s.vertex.busy && s.vertex.inQueue == s.vertex.numEvents == 0
    && s.vertex.serviceEnds == s.vertex.averageDelay == s.vertex.lastEvent == 0.0
    && s.vertex.busyTime == s.vertex.utilisation == s.vertex.queueTime == s.vertex.averageQueue == 0.0
    && LogLengths(s.past) && s.past.arrivals == [] && s.past.lone == []
  }

  /** When the server is free for arrival i: when the previous job departs. */
  function FreeAt(p: Past, i: nat): real
    requires LogLengths(p) && i < |p.arrivals|
  {
    if i == 0 then p.arrivals[0] else p.departures[i - 1]
  }

  /** Lindley's equations for job i: it waits until the job before it has departed. */
  ghost predicate Served(p: Past, i: nat)
    requires LogLengths(p) && i < |p.arrivals|
  {
    && p.departures[i] == Max(p.arrivals[i], FreeAt(p, i)) + p.services[i]
    && p.delays[i] == Max(0.0, FreeAt(p, i) - p.arrivals[i])
    && p.starts[i] == p.arrivals[i] + p.delays[i]
    && p.services[i] >= 0.0
  }

  /** Lindley's recursion for a single server with unlimited queue. */
  ghost predicate Lindley(p: Past) {
    LogLengths(p) && forall i: nat :: i < |p.arrivals| ==> Served(p, i)
  }

  /** Arrivals and departures seen so far lie in the past, departures to come do not. */
  ghost predicate InTime(p: Past, now: real) {
    && LogLengths(p) && now >= 0.0
    && (forall i :: 0 <= i < |p.arrivals| ==> 0.0 <= p.arrivals[i] <= now)
    && (forall i :: 0 <= i < p.served ==> p.departures[i] <= now)
    && (forall i :: p.served <= i < |p.departures| ==> now <= p.departures[i])
  }

  /** The flags and counters of the vertex agree with the log. */
  ghost predicate Counted(s: Server) {
    var v, p, n := s.vertex, s.past, |s.past.arrivals|;
    && LogLengths(p)
    && (v.busy <==> p.served < n)
    && v.inQueue == n - p.served - (if v.busy then 1 else 0)
    && v.numEvents == n
    && (n > 0 ==> v.serviceEnds == p.departures[n - 1])
    && Times(n, v.averageDelay) == Sum(p.delays)
  }

  /** Service still owed at the last event. */
  function Remaining(v: Vertex): real { if v.busy then v.serviceEnds - v.lastEvent else 0.0 }

  /** Time the server spent serving until `t`, from the log. */
  function BusyUntil(p: Past, t: real): real { ClippedSum(p.departures, t) - ClippedSum(p.starts, t) }

  /** Time spent waiting for service, over all jobs, until `t`. */
  function WaitingUntil(p: Past, t: real): real { ClippedSum(p.starts, t) - Sum(p.arrivals) }

  /** Time spent at the server, waiting or served, over all jobs, until `t`. */
  function PresentUntil(p: Past, t: real): real { ClippedSum(p.departures, t) - Sum(p.arrivals) }

  ghost predicate Integrated(s: Server) {
    var v, p := s.vertex, s.past;
    && v.busyTime == BusyUntil(p, v.lastEvent)
    && v.busyTime + Remaining(v) == Sum(p.services)
    && v.queueTime == WaitingUntil(p, v.lastEvent) + Sum(p.lone)
    && (forall i :: 0 <= i < |p.lone| ==> p.lone[i] >= 0.0) && Sum(p.lone) <= v.busyTime
    && 0.0 <= v.busyTime <= v.lastEvent
    && v.utilisation == Ratio(v.busyTime, v.lastEvent)
    && v.averageQueue == Ratio(v.queueTime, v.lastEvent)
  }

  /** What every event keeps. */
  ghost predicate Consistent(s: Server) {
    Lindley(s.past) && InTime(s.past, s.vertex.lastEvent) && Counted(s) && Integrated(s)
  }

  /** A vertex that has seen no events is consistent. */
  lemma {:induction false} IdleConsistent(s: Server)
    requires IsNew(s)
    ensures Consistent(s)
  {
    hide Ratio;
    RatioOfZero();
  }

  // ---- consequences ------------------------------------------------------------------------

  /** Departures come in the order of arrivals. */
  lemma {:induction false} DeparturesInOrder(p: Past, i: nat, j: nat)
    requires Lindley(p) && i <= j < |p.departures|
    ensures p.departures[i] <= p.departures[j]
  {
    if i == j {
    } else {
      DeparturesInOrder(p, i, j - 1);
      assert Served(p, j);
    }
  }

  /** While a job is in service its service began in the past, and all others' lies ahead. */
  lemma {:induction false} StartsInTime(p: Past, t: real, now: real, i: nat)
    requires Lindley(p) && InTime(p, t) && i < |p.starts|
    requires forall k :: p.served <= k < |p.departures| ==> now <= p.departures[k]
    ensures p.starts[i] == Max(p.arrivals[i], FreeAt(p, i))
    ensures i <= p.served ==> p.starts[i] <= t
    ensures i > p.served ==> now <= p.starts[i]
  {
    assert Served(p, i);
  }

  /** Utilisation is a fraction of time, at every positive time. */
  lemma {:induction false} UtilisationInUnit(s: Server)
    requires Consistent(s) && s.vertex.lastEvent > 0.0
    ensures 0.0 <= s.vertex.utilisation <= 1.0
  {
    QuotientInUnit(s.vertex.busyTime, s.vertex.lastEvent);
  }

  /** At positive times, utilisation and average queue length times the time are the integrals. */
  lemma {:induction false} AveragesOverTime(s: Server)
    requires Consistent(s) && s.vertex.lastEvent > 0.0
    ensures var v := s.vertex;
      && Product(v.utilisation, v.lastEvent) == v.busyTime
      && Product(v.averageQueue, v.lastEvent) == v.queueTime
  {
    QuotientBack(s.vertex.busyTime, s.vertex.lastEvent);
    QuotientBack(s.vertex.queueTime, s.vertex.lastEvent);
  }

  lemma {:induction false} QuotientBack(a: real, b: real)
    requires b > 0.0
    ensures Product(Ratio(a, b), b) == a
  {
  }

  /** The queue integral is the time spent waiting plus what the departures of lone jobs add to it:
      it is never too small, and it is right if and only if each of those departures came at the
      time of the event before it. */
  lemma {:induction false} QueueIntegralIff(s: Server)
    requires Consistent(s)
    ensures var v, p := s.vertex, s.past;
      && WaitingUntil(p, v.lastEvent) <= v.queueTime <= PresentUntil(p, v.lastEvent)
      && (v.queueTime == WaitingUntil(p, v.lastEvent) <==> forall i :: 0 <= i < |p.lone| ==> p.lone[i] == 0.0)
  {
    hide ClippedSum, Lindley, InTime, Counted, Ratio;
    SumIsZeroIff(s.past.lone);
  }

  lemma {:induction false} SumIsZeroIff(s: seq<real>)
    requires forall i :: 0 <= i < |s| ==> s[i] >= 0.0
    ensures Sum(s) >= 0.0 && (Sum(s) == 0.0 <==> forall i :: 0 <= i < |s| ==> s[i] == 0.0)
  {
    if s == [] {
    } else {
      SumIsZeroIff(s[..|s| - 1]);
    }
  }

  /** A single job is served at once and departs when its service is over: nobody has waited, but the
      queue integral is the job's service time. */
  lemma {:induction false} LoneJobCounts(s: Server, t: real, service: real)
    requires IsNew(s) && t >= 0.0 && service >= 0.0
    ensures var a := Admit(s, t, service); var d := Discharge(a, t + service);
      && CanAdmit(s, t, service) && CanDischarge(a, t + service)
      && d.past.delays == [0.0] && d.vertex.queueTime == service
  {
    hide Admit, Account, LogDeparture;
    var a := Admit(s, t, service);
    FirstJob(s, t, service);
    QueueAfterDeparture(a.vertex, t + service);
    LogKeepsDelays(a.past, t + service - a.vertex.lastEvent);
  }

  lemma {:induction false} FirstJob(s: Server, t: real, service: real)
    requires IsNew(s)
    ensures var v, p := Admit(s, t, service).vertex, Admit(s, t, service).past;
      && v.busy && v.inQueue == 0 && v.lastEvent == t && v.queueTime == 0.0
      && p.departures == [t + service] && p.delays == [0.0] && p.served == 0
  {
    hide Ratio, RunningMean;
    assert s.past.delays == [] && s.past.departures == [];
  }

  lemma {:induction false} QueueAfterDeparture(v: Vertex, t: real)
    requires v.inQueue == 0 && t >= v.lastEvent
    ensures Account(Release(v), t, false).queueTime == v.queueTime + (t - v.lastEvent)
  {
    hide Ratio;
  }

  lemma {:induction false} LogKeepsDelays(p: Past, gap: real)
    ensures LogDeparture(p, gap).delays == p.delays
  {
  }

  // ---- arrivals ---------------------------------------------------------------------------

  /** An arrival no earlier than the last event and no later than the next departure. */
  ghost predicate CanAdmit(s: Server, t: real, service: real) {
    && t >= s.vertex.lastEvent && service >= 0.0
    && forall i :: s.past.served <= i < |s.past.departures| ==> t <= s.past.departures[i]
  }

  lemma {:induction false} AdmitLog(s: Server, t: real, service: real)
    requires Consistent(s) && CanAdmit(s, t, service)
    ensures var p := Admit(s, t, service).past;
      Lindley(p) && InTime(p, t)
  {
    hide RunningMean, Times, Ratio, Sum, ClippedSum;
    var v, p, p' := s.vertex, s.past, Admit(s, t, service).past;
    var n := |p.arrivals|;
    forall i: nat | i < n ensures Served(p', i) { assert Served(p, i); }
    assert Served(p', n);
  }

  lemma {:induction false} AdmitCounted(s: Server, t: real, service: real)
    requires Consistent(s) && CanAdmit(s, t, service)
    ensures Counted(Admit(s, t, service))
  {
    hide RunningMean, Times, Ratio, Sum, ClippedSum, Lindley, InTime;
    var v, p := s.vertex, s.past;
    SumSnoc(p.delays, Delay(v, t));
    RunningMeanIsMean(v.numEvents, v.averageDelay, Delay(v, t), Sum(p.delays));
  }

  /** Between two events the logged integrals grow with the number of jobs present. */
  lemma {:induction false} IntegralsGrow(s: Server, t: real)
    requires Lindley(s.past) && InTime(s.past, s.vertex.lastEvent) && Counted(s) && t >= s.vertex.lastEvent
    requires forall i :: s.past.served <= i < |s.past.departures| ==> t <= s.past.departures[i]
    ensures var v, p, gap := s.vertex, s.past, t - s.vertex.lastEvent;
      && ClippedSum(p.departures, t)
         == ClippedSum(p.departures, v.lastEvent) + Times(v.inQueue + (if v.busy then 1 else 0), gap)
      && ClippedSum(p.starts, t) == ClippedSum(p.starts, v.lastEvent) + Times(v.inQueue, gap)
  {
    hide Times, Sum, ClippedSum;
    var v, p := s.vertex, s.past;
    ClippedGrows(p.departures, p.served, v.lastEvent, t);
    forall i: nat | i < |p.starts|
      ensures i <= p.served ==> p.starts[i] <= v.lastEvent
      ensures i > p.served ==> t <= p.starts[i]
    {
      StartsInTime(p, v.lastEvent, t, i);
    }
    ClippedGrows(p.starts, if v.busy then p.served + 1 else p.served, v.lastEvent, t);
  }

  lemma {:induction false} TimesStep(n: int, x: real)
    ensures Times(n + 1, x) == Times(n, x) + x
    ensures Times(0, x) == 0.0 && Times(1, x) == x
  {
  }

  lemma {:induction false} AdmitIntegrated(s: Server, t: real, service: real)
    requires Consistent(s) && CanAdmit(s, t, service)
    ensures Integrated(Admit(s, t, service))
  {
    hide RunningMean, Times, Ratio, Sum, ClippedSum;
    var v, p := s.vertex, s.past;
    var departure, start := DepartureTime(v, t, service), t + Delay(v, t);
    if v.busy { assert v.serviceEnds == p.departures[|p.arrivals| - 1] >= t; }
    IntegralsGrow(s, t);
    ClippedSnoc(p.departures, departure, t);
    ClippedSnoc(p.starts, start, t);
    SumSnoc(p.arrivals, t);
    SumSnoc(p.services, service);
    TimesStep(v.inQueue, t - v.lastEvent);
    TimesStep(0, t - v.lastEvent);
  }

  /** Every arrival in time order keeps the server consistent. */
  lemma {:induction false} AdmitKeeps(s: Server, t: real, service: real)
    requires Consistent(s) && CanAdmit(s, t, service)
    ensures Consistent(Admit(s, t, service))
  {
    AdmitLog(s, t, service);
    AdmitCounted(s, t, service);
    AdmitIntegrated(s, t, service);
  }

  // ---- departures -------------------------------------------------------------------------

  /** The departure that is due: the oldest job that has not left. */
  ghost predicate CanDischarge(s: Server, t: real) {
    && s.past.served < |s.past.departures| && t == s.past.departures[s.past.served]
  }

  lemma {:induction false} DischargeLog(s: Server, t: real)
    requires Consistent(s) && CanDischarge(s, t)
    ensures var p := Discharge(s, t).past;
      Lindley(p) && InTime(p, t)
  {
    hide RunningMean, Times, Ratio, Sum, ClippedSum;
    var p, p' := s.past, Discharge(s, t).past;
    forall i: nat | i < |p.arrivals| ensures Served(p', i) { assert Served(p, i); }
    forall i: nat | p.served <= i < |p.departures| ensures t <= p.departures[i] {
      DeparturesInOrder(p, p.served, i);
    }
    forall i: nat | i <= p.served ensures p.departures[i] <= t {
      DeparturesInOrder(p, i, p.served);
    }
  }

  lemma {:induction false} DischargeIntegrated(s: Server, t: real)
    requires Consistent(s) && CanDischarge(s, t)
    ensures Integrated(Discharge(s, t))
  {
    hide RunningMean, Times, Ratio, Sum, ClippedSum;
    var v, p := s.vertex, s.past;
    forall i: nat | p.served <= i < |p.departures| ensures t <= p.departures[i] {
      DeparturesInOrder(p, p.served, i);
    }
    IntegralsGrow(s, t);
    TimesStep(v.inQueue, t - v.lastEvent);
    TimesStep(0, t - v.lastEvent);
    SumSnoc(p.lone, t - v.lastEvent);
  }

  /** The departure that is due keeps the server consistent. */
  lemma {:induction false} DischargeKeeps(s: Server, t: real)
    requires Consistent(s) && CanDischarge(s, t)
    ensures Consistent(Discharge(s, t))
  {
    DischargeLog(s, t);
    DischargeIntegrated(s, t);
  }
}
