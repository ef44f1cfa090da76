/** In every run each vertex of the network is a consistent server: its pending departures are
    those that Lindley's recursion predicts. */
module NetworkServers {
  import opened Entries
  import opened Servers
  import opened Network

  /** The times of the departures pending at a vertex. */
  ghost function DepartureTimes(p: seq<Entry>, v: nat): multiset<real> {
    if p == [] then multiset{} else DepartureTimes(p[..|p| - 1], v) + TimeOf(p[|p| - 1], v)
  }

  ghost function TimeOf(e: Entry, v: nat): multiset<real> {
    if e.kind.Departure? && e.destination == v then multiset{e.arrival} else multiset{}
  }

  lemma {:induction false} TimesAppend(p: seq<Entry>, q: seq<Entry>, v: nat)
    ensures DepartureTimes(p + q, v) == DepartureTimes(p, v) + DepartureTimes(q, v)
  {
    hide TimeOf;
    if q == [] {
      assert p + q == p;
    } else {
      TimesAppend(p, q[..|q| - 1], v);
      assert (p + q)[..|p + q| - 1] == p + q[..|q| - 1];
    }
  }

  lemma {:induction false} TimesPush(p: seq<Entry>, e: Entry, v: nat)
    ensures DepartureTimes(p + [e], v) == DepartureTimes(p, v) + TimeOf(e, v)
  {
    assert (p + [e])[..|p|] == p;
  }

  lemma {:induction false} TimesWithout(p: seq<Entry>, i: nat, v: nat)
    requires i < |p|
    ensures DepartureTimes(p, v) == DepartureTimes(Without(p, i), v) + TimeOf(p[i], v)
  {
    assert p == p[..i] + [p[i]] + p[i + 1..];
    TimesAppend(p[..i] + [p[i]], p[i + 1..], v);
    TimesPush(p[..i], p[i], v);
    TimesAppend(p[..i], p[i + 1..], v);
  }

  lemma {:induction false} NoDepartures(p: seq<Entry>, v: nat)
    requires forall j :: 0 <= j < |p| ==> !p[j].kind.Departure?
    ensures DepartureTimes(p, v) == multiset{}
  {
    if p == [] {
    } else {
      NoDepartures(p[..|p| - 1], v);
    }
  }

  /** Every time in the collection is that of a pending departure. */
  lemma {:induction false} TimesMember(p: seq<Entry>, v: nat, t: real) returns (j: nat)
    requires t in DepartureTimes(p, v)
    ensures j < |p| && p[j].kind.Departure? && p[j].destination == v && p[j].arrival == t
  {
    var n := |p| - 1;
    if t in TimeOf(p[n], v) { j := n; } else { j := TimesMember(p[..n], v, t); }
  }

  /** The departures that Lindley's recursion has fixed but that have not happened. */
  ghost function Due(s: Server): multiset<real>
    requires Lindley(s.past)
  {
    multiset(s.past.departures[s.past.served..])
  }

  ghost predicate ServerOk(s: Server, v: nat, pending: seq<Entry>, now: real) {
    && Consistent(s) && s.vertex.lastEvent <= now
    && DepartureTimes(pending, v) == Due(s)
  }

  ghost predicate NotBefore(p: seq<Entry>, now: real) {
    forall j :: 0 <= j < |p| ==> now <= p[j].arrival
  }

  /** The invariant: time runs forward, and each vertex agrees with its pending departures. */
  ghost predicate ServersOk(c: Config, w: World) {
    && Sized(c, w) && w.now >= 0.0 && NotBefore(w.pending, w.now)
    && forall v: nat :: v < |c.graph| ==> ServerOk(w.servers[v], v, w.pending, w.now)
  }

  lemma {:induction false} IdleLog(s: Server)
    requires IsNew(s) && Consistent(s)
    ensures Lindley(s.past) && Due(s) == multiset{} && s.vertex.lastEvent == 0.0
  {
  }

  // ---- the effect of single updates -------------------------------------------------------

  lemma {:induction false} RemoveKeeps(c: Config, w: World, i: nat)
    requires ServersOk(c, w) && Minimal(w.pending, i) && !w.pending[i].kind.Departure?
    ensures ServersOk(c, w.(pending := Without(w.pending, i), now := w.pending[i].arrival))
  {
    hide Consistent, DepartureTimes, Due;
    forall v: nat | v < |c.graph|
      ensures ServerOk(w.servers[v], v, Without(w.pending, i), w.pending[i].arrival)
    {
      assert ServerOk(w.servers[v], v, w.pending, w.now);
      TimesWithout(w.pending, i, v);
      assert TimeOf(w.pending[i], v) == multiset{};
    }
  }

  lemma {:induction false} PushKeeps(c: Config, w: World, es: seq<Entry>)
    requires ServersOk(c, w) && NotBefore(es, w.now)
    requires forall j :: 0 <= j < |es| ==> !es[j].kind.Departure?
    ensures ServersOk(c, w.(pending := w.pending + es))
  {
    hide Consistent;
    forall v: nat | v < |c.graph| ensures ServerOk(w.servers[v], v, w.pending + es, w.now) {
      assert ServerOk(w.servers[v], v, w.pending, w.now);
      TimesAppend(w.pending, es, v);
      NoDepartures(es, v);
    }
  }

  lemma {:induction false} AddExternalsKeeps(c: Config, w: World, gaps: seq<real>)
    requires ServersOk(c, w) && forall i :: 0 <= i < |gaps| ==> gaps[i] >= 0.0
    ensures ServersOk(c, AddExternals(w, gaps)) && AddExternals(w, gaps).now == w.now
  {
    if gaps == [] {
    } else {
      AddExternalsKeeps(c, w, gaps[..|gaps| - 1]);
      AddExternalKeeps(c, AddExternals(w, gaps[..|gaps| - 1]), gaps[|gaps| - 1], |gaps| - 1);
    }
  }

  lemma {:induction false} AddExternalKeeps(c: Config, w: World, gap: real, v: nat)
    requires ServersOk(c, w) && gap >= 0.0
    ensures ServersOk(c, AddExternal(w, gap, v))
  {
    hide ServersOk, ServerOk;
    NowAndPending(c, w);
    PushKeeps(c, w, [External(w.uid, w.now, gap, v)]);
    SameServers(c, w.(pending := w.pending + [External(w.uid, w.now, gap, v)]), AddExternal(w, gap, v));
  }

  lemma {:induction false} NowAndPending(c: Config, w: World)
    requires ServersOk(c, w)
    ensures Sized(c, w) && w.now >= 0.0 && NotBefore(w.pending, w.now)
  {
  }

  /** The invariant does not look at route logs, next actions or ids. */
  lemma {:induction false} SameServers(c: Config, w: World, w': World)
    requires ServersOk(c, w) && w'.servers == w.servers && w'.pending == w.pending && w'.now == w.now
    requires |w'.nextAction| == |w.nextAction|
    ensures ServersOk(c, w')
  {
    hide ServerOk;
  }

  /** Departures that are due lie in the future, since they are pending. */
  lemma {:induction false} DueInFuture(c: Config, w: World, v: nat, i: nat)
    requires ServersOk(c, w) && v < |c.graph|
    requires w.servers[v].past.served <= i < |w.servers[v].past.departures|
    ensures w.now <= w.servers[v].past.departures[i]
  {
    var s := w.servers[v];
    assert ServerOk(s, v, w.pending, w.now);
    var rest := s.past.departures[s.past.served..];
    assert rest[i - s.past.served] in multiset(rest);
    var j := TimesMember(w.pending, v, s.past.departures[i]);
  }

  /** An arrival now: the scheduled departure is the one Lindley's recursion adds. */
  lemma {:induction false} ArrivalKeeps(c: Config, w: World, e: Entry, service: real)
    requires ServersOk(c, w) && 0 <= e.destination < |c.graph| && e.arrival == w.now && service >= 0.0
    ensures ServersOk(c, HandleArrival(w, e, service))
  {
    hide Consistent, Admit, DepartureTime, TimeOf, DepartureOf, Due;
    var v: nat := e.destination;
    var s, w' := w.servers[v], HandleArrival(w, e, service);
    AdmitDue(c, w, e, service);
    var d := DepartureOf(s.vertex, e, service, w.uid);
    DepartureOfTimes(s.vertex, e, service, w.uid);
    TimeOfDeparture(d);
    forall u: nat | u < |c.graph| ensures ServerOk(w'.servers[u], u, w'.pending, w'.now) {
      assert ServerOk(w.servers[u], u, w.pending, w.now);
      TimesPush(w.pending, d, u);
    }
  }

  lemma {:induction false} DepartureOfTimes(x: Vertex, e: Entry, service: real, uid: nat)
    ensures var d := DepartureOf(x, e, service, uid);
      d.kind.Departure? && d.destination == e.destination && d.arrival == DepartureTime(x, e.arrival, service)
  {
  }

  lemma {:induction false} AdmitDue(c: Config, w: World, e: Entry, service: real)
    requires ServersOk(c, w) && 0 <= e.destination < |c.graph| && e.arrival == w.now && service >= 0.0
    ensures var s := w.servers[e.destination]; var s' := Admit(s, e.arrival, service);
      && Consistent(s) && Consistent(s') && Lindley(s'.past) && s'.vertex.lastEvent == w.now
      && DepartureTime(s.vertex, e.arrival, service) >= w.now
      && Due(s') == Due(s) + multiset{DepartureTime(s.vertex, e.arrival, service)}
  {
    var v: nat := e.destination;
    var s := w.servers[v];
    var s' := Admit(s, e.arrival, service);
    assert ServerOk(s, v, w.pending, w.now);
    forall i: nat | s.past.served <= i < |s.past.departures| ensures w.now <= s.past.departures[i] {
      DueInFuture(c, w, v, i);
    }
    AdmitKeeps(s, e.arrival, service);
    hide Consistent;
    DueGrows(s, s', DepartureTime(s.vertex, e.arrival, service));
    AdmittedInFuture(s, e.arrival, service);
  }

  lemma {:induction false} AdmittedInFuture(s: Server, t: real, service: real)
    requires Consistent(s) && CanAdmit(s, t, service)
    ensures DepartureTime(s.vertex, t, service) >= t
  {
  }

  lemma {:induction false} DueGrows(s: Server, s': Server, d: real)
    requires Lindley(s.past) && Lindley(s'.past)
    requires s'.past.departures == s.past.departures + [d] && s'.past.served == s.past.served
    ensures Due(s') == Due(s) + multiset{d}
  {
    assert s'.past.departures[s.past.served..] == s.past.departures[s.past.served..] + [d];
  }

  /** A departure taken from the queue is the one that is due. */
  lemma {:induction false} DepartureIsDue(c: Config, w: World, i: nat)
    requires ServersOk(c, w) && Minimal(w.pending, i) && w.pending[i].kind.Departure?
    requires 0 <= w.pending[i].destination < |c.graph|
    ensures CanDischarge(w.servers[w.pending[i].destination], w.pending[i].arrival)
  {
    var e := w.pending[i];
    var v: nat := e.destination;
    var s := w.servers[v];
    assert ServerOk(s, v, w.pending, w.now);
    hide Integrated, Counted, InTime, Consistent, TimeOf, Due;
    TimesWithout(w.pending, i, v);
    TimeOfDeparture(e);
    assert e.arrival in Due(s);
    FirstIsDue(s, e.arrival);
    var j := TimesMember(w.pending, v, s.past.departures[s.past.served]);
  }

  lemma {:induction false} FirstIsDue(s: Server, t: real)
    requires Lindley(s.past) && t in Due(s)
    ensures s.past.served < |s.past.departures|
    ensures s.past.departures[s.past.served] in Due(s) && s.past.departures[s.past.served] <= t
  {
    var d, k := s.past.departures, s.past.served;
    var i :| 0 <= i < |d[k..]| && d[k..][i] == t;
    assert d[k..][0] == d[k];
    DeparturesInOrder(s.past, k, k + i);
  }

  lemma {:induction false} DueShrinks(s: Server, t: real)
    requires Consistent(s) && CanDischarge(s, t)
    ensures Consistent(Discharge(s, t)) && Lindley(Discharge(s, t).past) && Discharge(s, t).vertex.lastEvent == t
    ensures Due(s) == Due(Discharge(s, t)) + multiset{t}
  {
    DischargeKeeps(s, t);
    DischargeCounts(s, t);
    DischargeLog(s, t);
    hide Discharge, Integrated, Counted, InTime;
    DueStep(s, Discharge(s, t), t);
  }

  lemma {:induction false} DueStep(s: Server, s': Server, t: real)
    requires Lindley(s.past) && Lindley(s'.past) && CanDischarge(s, t)
    requires s'.past.departures == s.past.departures && s'.past.served == s.past.served + 1
    ensures Due(s) == Due(s') + multiset{t}
  {
    hide Lindley;
    var d, k := s.past.departures, s.past.served;
    assert d[k..] == [d[k]] + d[k + 1..];
  }

  lemma {:induction false} DischargeCounts(s: Server, t: real)
    ensures var s' := Discharge(s, t);
      && s'.past.departures == s.past.departures && s'.past.served == s.past.served + 1 && s'.vertex.lastEvent == t
  {
    hide CountBusy, CountQueue;
  }

  lemma {:induction false} OnwardTimes(c: Config, w: World, e: Entry, choice: int)
    requires 0 <= e.destination < |c.graph| == |w.nextAction|
    ensures Onward(c, w, e, choice).arrival == e.arrival
    ensures forall u: nat :: TimeOf(Onward(c, w, e, choice), u) == multiset{}
  {
  }

  lemma {:induction false} TimeOfDeparture(e: Entry)
    requires e.kind.Departure?
    ensures forall u: nat :: TimeOf(e, u) == if u == e.destination then multiset{e.arrival} else multiset{}
  {
  }

  lemma {:induction false} Cancel(a: multiset<real>, b: multiset<real>, t: real)
    requires a + multiset{t} == b + multiset{t}
    ensures a == b
  {
    assert a == a + multiset{t} - multiset{t};
    assert b == b + multiset{t} - multiset{t};
  }

  lemma {:induction false} DepartureKeeps(c: Config, w: World, i: nat, choice: int)
    requires ServersOk(c, w) && Minimal(w.pending, i) && w.pending[i].kind.Departure?
    requires 0 <= w.pending[i].destination < |c.graph|
    ensures var e := w.pending[i];
      ServersOk(c, HandleDeparture(c, w.(pending := Without(w.pending, i), now := e.arrival), e, choice))
  {
    hide Consistent, Discharge, TimeOf, Onward, CanDischarge, Due;
    var e := w.pending[i];
    var v: nat := e.destination;
    var w1 := w.(pending := Without(w.pending, i), now := e.arrival);
    var w' := HandleDeparture(c, w1, e, choice);
    assert ServerOk(w.servers[v], v, w.pending, w.now);
    DepartureIsDue(c, w, i);
    DueShrinks(w.servers[v], e.arrival);
    TimeOfDeparture(e);
    var o := Onward(c, w1, e, choice);
    OnwardTimes(c, w1, e, choice);
    forall u: nat | u < |c.graph| ensures ServerOk(w'.servers[u], u, w'.pending, w'.now) {
      assert ServerOk(w.servers[u], u, w.pending, w.now);
      TimesWithout(w.pending, i, u);
      TimesPush(w1.pending, o, u);
      if u == v {
        assert w'.servers[u] == Discharge(w.servers[v], e.arrival);
        Cancel(DepartureTimes(w1.pending, u), Due(w'.servers[u]), e.arrival);
      }
    }
  }

  lemma {:induction false} OneHopsAreNow(e: Entry, targets: seq<nat>, uid: nat)
    requires e.path != [] && e.arrivals != []
    ensures forall j :: 0 <= j < |OneHops(e, targets, uid)| ==>
      var h := OneHops(e, targets, uid)[j]; h.kind.Ack1Hop? && h.arrival == e.arrival
  {
    if targets == [] {
    } else {
      OneHopsAreNow(e, targets[..|targets| - 1], uid);
    }
  }

  lemma {:induction false} BackwardIsNow(e: Entry, uid: nat)
    requires e.path != [] && e.arrivals != []
    ensures !Backward(e, uid).kind.Departure? && Backward(e, uid).arrival == e.arrival
  {
  }

  lemma {:induction false} AckKeeps(c: Config, w: World, e: Entry, choice: int)
    requires ServersOk(c, w) && e.arrival == w.now
    requires 0 <= e.destination < |c.graph| && e.path != [] && e.arrivals != []
    ensures ServersOk(c, HandleAck(c, w, e, choice))
  {
    hide ServersOk, Backward, OneHops, Audience, NewAction;
    NowAndPending(c, w);
    var es := [Backward(e, w.uid)] + OneHops(e, Audience(c, e), w.uid + 1);
    BackwardIsNow(e, w.uid);
    OneHopsAreNow(e, Audience(c, e), w.uid + 1);
    PushKeeps(c, w, es);
    assert w.pending + es == HandleAck(c, w, e, choice).pending;
    SameServers(c, w.(pending := w.pending + es), HandleAck(c, w, e, choice));
  }

  /** Every step keeps every server consistent. */
  lemma {:induction false} StepKeepsServers(c: Config, w: World, a: Action)
    requires ServersOk(c, w) && Enabled(c, w, a) && Handled(c, w.pending[a.index])
    ensures ServersOk(c, Step(c, w, a))
  {
    hide ServersOk;
    NowAndPending(c, w);
    var e, i, d := w.pending[a.index], a.index, a.draws;
    var w1 := w.(pending := Without(w.pending, i), now := e.arrival);
    if !e.kind.Departure? { RemoveKeeps(c, w, i); }
    match e.kind
    case LastArrival =>
      AddExternalKeeps(c, w1, d.gaps[e.destination], e.destination);
      ArrivalKeeps(c, AddExternal(w1, d.gaps[e.destination], e.destination), e, d.service);
    case Arrival => ArrivalKeeps(c, w1, e, d.service);
    case Departure => DepartureKeeps(c, w, i, d.choice);
    case Ack => AckKeeps(c, w1, e, d.choice);
    case Ack1Hop => SameServers(c, w1, Step(c, w, a));
    case Leave => SameServers(c, w1, Step(c, w, a));
    case GenerateArrivals => AddExternalsKeeps(c, w1, d.gaps);
    case Administrative =>
  }

  // ---- consequences ----------------------------------------------------------------------

  function DepartureAt(v: nat): Entry -> nat {
    (e: Entry) => if e.kind.Departure? && e.destination == v then 1 else 0
  }

  lemma {:induction false} CountTimes(p: seq<Entry>, v: nat)
    ensures Total(p, DepartureAt(v)) == |DepartureTimes(p, v)|
  {
    if p == [] {
    } else {
      CountTimes(p[..|p| - 1], v);
    }
  }

  /** A vertex has one pending departure for each waiting job and one for the job in service. */
  lemma {:induction false} PendingDepartures(c: Config, w: World, v: nat)
    requires ServersOk(c, w) && v < |c.graph|
    ensures var x := w.servers[v].vertex;
      Total(w.pending, DepartureAt(v)) == x.inQueue + if x.busy then 1 else 0
  {
    assert ServerOk(w.servers[v], v, w.pending, w.now);
    CountTimes(w.pending, v);
  }

  /** While a vertex is busy its service end is the latest of its pending departures. */
  lemma {:induction false} ServiceEndsIsLatest(c: Config, w: World, v: nat)
    requires ServersOk(c, w) && v < |c.graph| && w.servers[v].vertex.busy
    ensures w.servers[v].vertex.serviceEnds in DepartureTimes(w.pending, v)
    ensures forall j :: 0 <= j < |w.pending| && w.pending[j].kind.Departure? && w.pending[j].destination == v ==>
      w.pending[j].arrival <= w.servers[v].vertex.serviceEnds
  {
    var s := w.servers[v];
    assert ServerOk(s, v, w.pending, w.now);
    assert s.vertex.serviceEnds == s.past.departures[|s.past.departures| - 1];
    hide Consistent, Integrated, InTime, Counted, TimeOf;
    LastIsDue(s);
    forall j: nat | j < |w.pending| && w.pending[j].kind.Departure? && w.pending[j].destination == v
      ensures w.pending[j].arrival <= s.vertex.serviceEnds
    {
      TimesWithout(w.pending, j, v);
      TimeOfDeparture(w.pending[j]);
      assert w.pending[j].arrival in Due(s);
    }
  }

  lemma {:induction false} LastIsDue(s: Server)
    requires Lindley(s.past) && s.past.served < |s.past.departures|
    ensures s.past.departures[|s.past.departures| - 1] in Due(s)
    ensures forall t: real :: t in Due(s) ==> t <= s.past.departures[|s.past.departures| - 1]
  {
    var d, k, n := s.past.departures, s.past.served, |s.past.departures|;
    assert d[k..][n - 1 - k] == d[n - 1];
    forall t: real | t in Due(s) ensures t <= d[n - 1] {
      var i :| 0 <= i < n - k && d[k..][i] == t;
      DeparturesInOrder(s.past, k + i, n - 1);
    }
  }
}
