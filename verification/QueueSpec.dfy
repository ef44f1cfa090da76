/** The whole ladder queue over values: Top, Ladder and Bottom and the moves between them,
    as LadderQueue::push and LadderQueue::dequeue make them. Class LadderQueue refines this;
    QueueTheorems compares it with a sorted multiset. */
module QueueSpec {
  import opened Entries
  import opened EventLists
  import opened LadderSpec

  datatype Queue = Queue(thres: nat, top: seq<Entry>, topStart: real,
                         ladder: Rungs, bottom: seq<Entry>, last: real)

  /** The empty queue of the constructors. */
  function Initial(thres: nat): Queue {
    Queue(thres, [], 0.0, [Rung(DBL_MAX, 0.0, [])], [], 0.0)
  }

  /** Running maximum and minimum of Top. */
  function MaxTS(s: seq<Entry>): real {
    if s == [] then 0.0
    else var m := MaxTS(s[..|s| - 1]); if s[|s| - 1].arrival > m then s[|s| - 1].arrival else m
  }

  function MinTS(s: seq<Entry>): real {
    if s == [] then DBL_MAX
    else var m := MinTS(s[..|s| - 1]); if s[|s| - 1].arrival < m then s[|s| - 1].arrival else m
  }

  /** Where Top begins after it has been emptied: past its latest event. */
  function NextTopStart(top: seq<Entry>): real
    requires top != []
  {
    var max, min := MaxTS(top), MinTS(top);
    max + (if max > min then (max - min) / |top| as real else 0.0)
  }

  function BottomMax(q: Queue): real { if q.bottom != [] then q.bottom[|q.bottom| - 1].arrival else q.last }

  function BottomMin(q: Queue): real { if q.bottom != [] then q.bottom[0].arrival else q.last }

  datatype PushResult = Accepted | Rejected

  /** Does the event go to Bottom without asking the ladder? */
  predicate WithinBottom(q: Queue, e: Entry) {
    e.arrival <= BottomMax(q) && e.arrival >= BottomMin(q)
  }

  /** Bottom is offered the event: it is in Bottom's range, or the ladder throws. */
  predicate OfferedToBottom(q: Queue, e: Entry) {
    e.arrival < q.topStart && (WithinBottom(q, e) || Insert(q.ladder, e).None?)
  }

  /** Bottom takes the event and then holds more than the threshold. */
  predicate Overflows(q: Queue, e: Entry) {
    OfferedToBottom(q, e) && e.arrival >= q.last && |q.bottom| + 1 > q.thres
  }

  /** The overflow finds the ladder occupied: the `pushBack` branch. */
  predicate TakesPushBack(q: Queue, e: Entry) {
    Overflows(q, e) && Size(q.ladder) != 0
  }

  /** What follows an insertion into Bottom. */
  function Relieve(q: Queue): Queue
    requires q.thres >= 2
  {
    if |q.bottom| <= q.thres then q
    else if Size(q.ladder) == 0 then q.(ladder := Epoch(q.bottom, BottomMax(q), BottomMin(q)), bottom := [])
    else if |q.ladder| < MAX_RUNGS then q.(ladder := PushBack(q.ladder, q.thres, q.bottom), bottom := [])
    else q
  }

  function Push(q: Queue, e: Entry): (PushResult, Queue)
    requires q.thres >= 2
  {
    if e.arrival >= q.topStart then (Accepted, q.(top := q.top + [e]))
    else if OfferedToBottom(q, e) then
      if e.arrival < q.last then (Rejected, q)
      else (Accepted, Relieve(q.(bottom := InsertByTime(q.bottom, e))))
    else (Accepted, q.(ladder := Insert(q.ladder, e).value))
  }

  /** What a push before Top's start does. */
  lemma {:induction false} PushBelowTop(q: Queue, e: Entry)
    requires q.thres >= 2 && e.arrival < q.topStart
    ensures OfferedToBottom(q, e) && e.arrival < q.last ==> Push(q, e) == (Rejected, q)
    ensures OfferedToBottom(q, e) && e.arrival >= q.last ==>
      Push(q, e) == (Accepted, Relieve(q.(bottom := InsertByTime(q.bottom, e))))
    ensures !OfferedToBottom(q, e) ==>
      !WithinBottom(q, e) && Insert(q.ladder, e).Some?
      && Push(q, e) == (Accepted, q.(ladder := Insert(q.ladder, e).value))
  {
  }

  /** Top moves to the ladder as a new epoch. */
  function TopToLadder(q: Queue): Queue
    requires q.top != []
  {
    q.(top := [], topStart := NextTopStart(q.top), ladder := Epoch(q.top, MaxTS(q.top), MinTS(q.top)))
  }

  /** The next list of the ladder is sorted and merged into Bottom. */
  function LadderToBottom(q: Queue): (r: Queue)
    ensures r.last == q.last
  {
    var (list, rest) := Delist(q.ladder, q.thres);
    q.(ladder := rest, bottom := Merge(q.bottom, Sort(list)))
  }

  /** Bottom refilled so that its front, if there is one, is what is dequeued next. */
  function Refill(q: Queue): Queue {
    if q.bottom != [] then q
    else if Size(q.ladder) > 0 then LadderToBottom(q)
    else if q.top != [] then LadderToBottom(TopToLadder(q))
    else q
  }

  function Dequeue(q: Queue): (Option<Entry>, Queue) {
    var r := Refill(q);
    if r.bottom == [] then (None, r)
    else (Some(r.bottom[0]), r.(bottom := r.bottom[1..], last := r.bottom[0].arrival))
  }

  /** Every event the queue holds. */
  function Stored(q: Queue): multiset<Entry> {
    multiset(q.top) + Contents(q.ladder) + multiset(q.bottom)
  }

  function StoredSize(q: Queue): nat { |q.top| + Size(q.ladder) + |q.bottom| }

  // ---- runs -------------------------------------------------------------------------

  datatype Op = PushOp(e: Entry) | DequeueOp

  datatype Out = PushOut(result: PushResult) | DequeueOut(entry: Option<Entry>)

  function Step(q: Queue, op: Op): (Out, Queue)
    requires q.thres >= 2
  {
    match op
    case PushOp(e) => var (r, q') := Push(q, e); (PushOut(r), q')
    case DequeueOp => var (r, q') := Dequeue(q); (DequeueOut(r), q')
  }

  /** The queue after a run. */
  function After(q: Queue, ops: seq<Op>): (r: Queue)
    requires q.thres >= 2
    ensures r.thres == q.thres
  {
    if ops == [] then q
    else Step(After(q, ops[..|ops| - 1]), ops[|ops| - 1]).1
  }

  /** What a run answers, one output per operation. */
  function Outputs(q: Queue, ops: seq<Op>): (outs: seq<Out>)
    requires q.thres >= 2
    ensures |outs| == |ops|
  {
    if ops == [] then []
    else Outputs(q, ops[..|ops| - 1]) + [Step(After(q, ops[..|ops| - 1]), ops[|ops| - 1]).0]
  }

  /** Events a run accepted, and events it handed out. */
  function AcceptedIn(ops: seq<Op>, outs: seq<Out>): multiset<Entry>
    requires |ops| == |outs|
  {
    if ops == [] then multiset{}
    else
      var n := |ops| - 1;
      AcceptedIn(ops[..n], outs[..n])
        + if ops[n].PushOp? && outs[n] == PushOut(Accepted) then multiset{ops[n].e} else multiset{}
  }

  function Dequeued(outs: seq<Out>): seq<Entry> {
    if outs == [] then []
    else
      var n := |outs| - 1;
      Dequeued(outs[..n])
        + if outs[n].DequeueOut? && outs[n].entry.Some? then [outs[n].entry.value] else []
  }
}
