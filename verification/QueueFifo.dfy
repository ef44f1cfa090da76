/** First in, first out on equal times: as long as Bottom never overflows onto an occupied ladder,
    nor with its front at the last dequeued time, events leave in order of (arrival, gid). */
module QueueFifo {
  import opened Entries
  import opened EventLists
  import opened LadderSpec
  import opened QueueSpec
  import opened QueueTheorems
  import opened QueueOrder

  /** Bottom overflows onto the empty ladder while its front lies at the last dequeued time. */
  predicate TieOverflow(q: Queue, e: Entry) {
    Overflows(q, e) && Size(q.ladder) == 0 && q.last == InsertByTime(q.bottom, e)[0].arrival
  }

  /** A push that keeps ties in order. */
  predicate KeepsTies(q: Queue, e: Entry) {
    !TakesPushBack(q, e) && !TieOverflow(q, e)
  }

  predicate NoTieOverflow(q: Queue, ops: seq<Op>)
    requires q.thres >= 2
  {
    ops == [] ||
    (var n := |ops| - 1;
     && NoTieOverflow(q, ops[..n])
     && (ops[n].PushOp? ==> KeepsTies(After(q, ops[..n]), ops[n].e)))
  }

  /** Events are pushed in the order their records were created. */
  predicate GidOrder(ops: seq<Op>) {
    forall i, j :: 0 <= i < j < |ops| && ops[i].PushOp? && ops[j].PushOp? ==> ops[i].e.gid < ops[j].e.gid
  }

  ghost predicate Holds(q: Queue, x: Entry)
    requires |q.ladder| == 1
  {
    x in q.bottom || x in q.ladder[0].events || x in q.top
  }

  /** Everything stored was pushed by `ops`. Bottom is lexicographic, and strictly before the
      ladder, where there are events; both come before Top, whose gids increase. */
  ghost predicate Fifo(q: Queue, ops: seq<Op>) {
    && Ordered(q)
    && Lexicographic(q.bottom) && DistinctGids(q.bottom) && DistinctGids(q.ladder[0].events)
    && (q.ladder[0].events != [] ==>
         q.last < q.ladder[0].cur && forall x :: x in q.bottom ==> x.arrival < q.ladder[0].cur)
    && (forall x, y :: (x in q.bottom || x in q.ladder[0].events) && y in q.top ==> Less(x, y))
    && (forall i, j :: 0 <= i < j < |q.top| ==> q.top[i].gid < q.top[j].gid)
    && (forall x :: Holds(q, x) ==> PushOp(x) in ops)
  }

  lemma {:induction false} LaterGids(ops: seq<Op>, e: Entry)
    requires GidOrder(ops + [PushOp(e)])
    ensures forall x :: PushOp(x) in ops ==> x.gid < e.gid && PushOp(x) in ops + [PushOp(e)]
    ensures PushOp(e) in ops + [PushOp(e)]
  {
    var ops' := ops + [PushOp(e)];
    assert ops'[|ops|] == PushOp(e);
    forall x | PushOp(x) in ops ensures x.gid < e.gid {
      var i :| 0 <= i < |ops| && ops[i] == PushOp(x);
      assert ops'[i].PushOp?;
    }
  }

  // ---- pushes ----------------------------------------------------------------------------

  /** What a push adds to Bottom keeps the order of ties. */
  lemma {:induction false} FifoInsertBottom(q: Queue, ops: seq<Op>, e: Entry)
    requires Fifo(q, ops) && OfferedToBottom(q, e) && q.last <= e.arrival < q.topStart
    requires GidOrder(ops + [PushOp(e)])
    ensures var b := InsertByTime(q.bottom, e);
      && Lexicographic(b) && DistinctGids(b) && b != []
      && (forall x :: x in b <==> x in q.bottom || x == e)
      && (q.ladder[0].events != [] ==> forall x :: x in b ==> x.arrival < q.ladder[0].cur)
  {
    LaterGids(ops, e);
    SingleRung(q.ladder);
    InsertByTimeFifo(q.bottom, e);
    InsertByTimeDistinct(q.bottom, e);
    InsertByTimeMultiset(q.bottom, e);
    var b := InsertByTime(q.bottom, e);
    forall x ensures x in b <==> x in q.bottom || x == e {
      assert x in b <==> x in multiset(b);
      assert x in q.bottom <==> x in multiset(q.bottom);
    }
  }

  /** What Bottom then holds comes before Top, and was pushed. */
  lemma {:induction false} FifoBeforeTop(q: Queue, ops: seq<Op>, e: Entry)
    requires Fifo(q, ops) && OfferedToBottom(q, e) && q.last <= e.arrival < q.topStart
    requires GidOrder(ops + [PushOp(e)])
    ensures forall x, y :: x in InsertByTime(q.bottom, e) && y in q.top ==> Less(x, y)
    ensures forall x :: x in InsertByTime(q.bottom, e) || Holds(q, x) ==> PushOp(x) in ops + [PushOp(e)]
  {
    FifoInsertBottom(q, ops, e);
    LaterGids(ops, e);
    OrderedBounds(q);
    hide Ordered, Lexicographic, DistinctGids, InsertByTime;
  }

  /** Bottom takes the event. */
  lemma {:induction false} FifoKept(q: Queue, ops: seq<Op>, e: Entry)
    requires Fifo(q, ops) && OfferedToBottom(q, e) && q.last <= e.arrival < q.topStart
    requires GidOrder(ops + [PushOp(e)]) && Ordered(q.(bottom := InsertByTime(q.bottom, e)))
    ensures Fifo(q.(bottom := InsertByTime(q.bottom, e)), ops + [PushOp(e)])
  {
    FifoInsertBottom(q, ops, e);
    FifoBeforeTop(q, ops, e);
    hide Ordered, Lexicographic, DistinctGids, InsertByTime;
  }

  /** Bottom then overflows onto the empty ladder. */
  lemma {:induction false} FifoMoved(q: Queue, ops: seq<Op>, e: Entry, r: Queue)
    requires Fifo(q, ops) && OfferedToBottom(q, e) && q.last <= e.arrival < q.topStart
    requires GidOrder(ops + [PushOp(e)]) && Ordered(r)
    requires |r.ladder| == 1 && r.bottom == [] && r.top == q.top && r.last == q.last < r.ladder[0].cur
    requires r.ladder[0].events == InsertByTime(q.bottom, e)
    ensures Fifo(r, ops + [PushOp(e)])
  {
    FifoInsertBottom(q, ops, e);
    FifoBeforeTop(q, ops, e);
    assert Lexicographic([]) && DistinctGids([]);
    hide Ordered, Lexicographic, DistinctGids, InsertByTime;
  }

  lemma {:induction false} FifoBottom(q: Queue, ops: seq<Op>, e: Entry)
    requires Fifo(q, ops) && KeepsTies(q, e) && e.arrival <= DBL_MAX && GidOrder(ops + [PushOp(e)])
    requires OfferedToBottom(q, e) && q.last <= e.arrival < q.topStart
    ensures Fifo(Relieve(q.(bottom := InsertByTime(q.bottom, e))), ops + [PushOp(e)])
  {
    PushKeepsOrder(q, e);
    PushBelowTop(q, e);
    OrderedBounds(q);
    hide Fifo, Ordered, Push;
    var b := InsertByTime(q.bottom, e);
    var r := Relieve(q.(bottom := b));
    InsertByTimeMultiset(q.bottom, e);
    if |b| > q.thres {
      assert Overflows(q, e);
      InsertedBounds(q, e);
      FifoMoved(q, ops, e, r);
    } else {
      FifoKept(q, ops, e);
    }
  }

  lemma {:induction false} InsertedBounds(q: Queue, e: Entry)
    requires Ordered(q) && q.last <= e.arrival
    ensures InsertByTime(q.bottom, e) != [] && q.last <= InsertByTime(q.bottom, e)[0].arrival
  {
    InsertByTimeMember(q.bottom, e, InsertByTime(q.bottom, e)[0]);
  }

  lemma {:induction false} OrderedBounds(q: Queue)
    requires Ordered(q)
    ensures q.thres >= 2 && |q.ladder| == 1 && q.last <= q.topStart
    ensures forall y :: y in q.top ==> q.topStart <= y.arrival
    ensures forall x :: x in q.bottom ==> q.last <= x.arrival <= q.topStart
    ensures q.ladder[0].events != [] ==>
      forall x :: x in q.ladder[0].events ==> q.ladder[0].cur <= x.arrival <= q.topStart
  {
    SingleRung(q.ladder);
  }

  lemma {:induction false} FifoPush(q: Queue, ops: seq<Op>, e: Entry)
    requires Fifo(q, ops) && KeepsTies(q, e) && e.arrival <= DBL_MAX
    requires GidOrder(ops + [PushOp(e)])
    ensures Fifo(Push(q, e).1, ops + [PushOp(e)])
  {
    assert q.thres >= 2 by { OrderedBounds(q); }
    if e.arrival >= q.topStart {
      FifoTop(q, ops, e);
    } else {
      PushBelowTop(q, e);
      hide Fifo, Push, Relieve;
      if !OfferedToBottom(q, e) {
        FifoLadder(q, ops, e);
      } else if e.arrival >= q.last {
        FifoBottom(q, ops, e);
      } else {
        IgnoresOp(q, ops, PushOp(e));
      }
    }
  }

  lemma {:induction false} FifoTop(q: Queue, ops: seq<Op>, e: Entry)
    requires Fifo(q, ops) && e.arrival <= DBL_MAX && GidOrder(ops + [PushOp(e)]) && e.arrival >= q.topStart
    ensures Fifo(q.(top := q.top + [e]), ops + [PushOp(e)])
  {
    LaterGids(ops, e);
    PushKeepsOrder(q, e);
    OrderedBounds(q);
    SingleRung(q.ladder);
    hide Ordered;
  }

  lemma {:induction false} FifoLadder(q: Queue, ops: seq<Op>, e: Entry)
    requires Fifo(q, ops) && e.arrival <= DBL_MAX && GidOrder(ops + [PushOp(e)])
    requires e.arrival < q.topStart && !OfferedToBottom(q, e) && Insert(q.ladder, e).Some?
    ensures Fifo(q.(ladder := Insert(q.ladder, e).value), ops + [PushOp(e)])
  {
    LaterGids(ops, e);
    PushKeepsOrder(q, e);
    OrderedBounds(q);
    SingleRung(q.ladder);
    hide Ordered;
    assert Insert(q.ladder, e).value[0].events == q.ladder[0].events + [e];
  }

  /** A rejected push and a dequeue add no events. */
  lemma {:induction false} IgnoresOp(q: Queue, ops: seq<Op>, op: Op)
    requires Fifo(q, ops)
    ensures Fifo(q, ops + [op])
  {
    hide Ordered, Lexicographic, DistinctGids;
    forall x | PushOp(x) in ops ensures PushOp(x) in ops + [op] {}
  }

  /** What the queue holds is what it stores. */
  lemma {:induction false} HoldsStored(q: Queue, x: Entry)
    requires |q.ladder| == 1
    ensures Holds(q, x) <==> x in Stored(q)
  {
    SingleRung(q.ladder);
  }

  // ---- dequeues --------------------------------------------------------------------------

  /** A list sorted into the empty Bottom, nothing left on the ladder. */
  lemma {:induction false} FifoSorted(q: Queue)
    requires |q.ladder| == 1 && q.bottom == [] && DistinctGids(q.ladder[0].events)
    ensures var r := LadderToBottom(q);
      && |r.ladder| == 1 && r.ladder[0].events == [] && r.top == q.top
      && Lexicographic(r.bottom) && DistinctGids(r.bottom)
      && forall x :: x in r.bottom <==> x in q.ladder[0].events
  {
    var (list, rest) := Delist(q.ladder, q.thres);
    SortLexicographic(list);
    SortCorrect(list);
    MembersOf(Sort(list), list);
  }

  lemma {:induction false} FifoRefilled(q: Queue, ops: seq<Op>)
    requires Fifo(q, ops)
    ensures Fifo(Refill(q), ops)
  {
    RefillKeepsOrder(q);
    OrderedBounds(q);
    SingleRung(q.ladder);
    hide Ordered, LadderToBottom, Lexicographic;
    if q.bottom == [] && q.ladder[0].events != [] {
      FifoSorted(q);
    } else if q.bottom == [] && q.top != [] {
      FifoSorted(TopToLadder(q));
    }
  }

  lemma {:induction false} FifoPop(q: Queue, ops: seq<Op>)
    requires Fifo(q, ops) && q.bottom != []
    ensures var x, q' := q.bottom[0], q.(bottom := q.bottom[1..], last := q.bottom[0].arrival);
      && Fifo(q', ops) && PushOp(x) in ops
      && forall y :: Holds(q', y) ==> Less(x, y)
  {
    FrontIsLeast(q);
    OrderedBounds(q);
    hide Ordered;
    var b := q.bottom;
    assert b[0] in b;
    forall x | x in b[1..] ensures x in b && Less(b[0], x) {}
  }

  lemma {:induction false} FifoDequeue(q: Queue, ops: seq<Op>)
    requires Fifo(q, ops)
    ensures Fifo(Dequeue(q).1, ops)
    ensures var (r, q') := Dequeue(q);
      r.Some? ==> PushOp(r.value) in ops && forall y :: Holds(q', y) ==> Less(r.value, y)
  {
    hide Refill, Lexicographic, Ordered, DistinctGids;
    FifoRefilled(q, ops);
    if Refill(q).bottom != [] { FifoPop(Refill(q), ops); }
  }

  // ---- what has left -----------------------------------------------------------------------

  /** `d` has left in lexicographic order, before everything the queue still holds. */
  ghost predicate Left(q: Queue, ops: seq<Op>, d: seq<Entry>)
    requires |q.ladder| == 1
  {
    && Lexicographic(d)
    && (forall x :: x in d ==> PushOp(x) in ops && x.arrival <= q.last)
    && (forall x, y :: x in d && Holds(q, y) ==> Less(x, y))
  }

  /** A push adds at most its event, and not before the last dequeued time. */
  lemma {:induction false} PushAdds(q: Queue, e: Entry, y: Entry)
    requires Ordered(q) && e.arrival <= DBL_MAX && !TakesPushBack(q, e)
    ensures |Push(q, e).1.ladder| == 1 && Push(q, e).1.last == q.last
    ensures Holds(Push(q, e).1, y) ==> Holds(q, y) || (y == e && q.last <= e.arrival)
  {
    PushKeepsOrder(q, e);
    PushKeepsLast(q, e);
    PushConserves(q, e);
    OrderedBounds(q);
    OrderedBounds(Push(q, e).1);
    HoldsStored(q, y);
    HoldsStored(Push(q, e).1, y);
    hide Push, Ordered, Holds, Stored, TakesPushBack;
  }

  lemma {:induction false} LeftPush(q: Queue, ops: seq<Op>, e: Entry, d: seq<Entry>)
    requires Ordered(q) && !TakesPushBack(q, e) && e.arrival <= DBL_MAX
    requires GidOrder(ops + [PushOp(e)]) && Left(q, ops, d)
    ensures |Push(q, e).1.ladder| == 1 && Left(Push(q, e).1, ops + [PushOp(e)], d)
  {
    LaterGids(ops, e);
    hide Push, Ordered, TakesPushBack, Lexicographic;
    forall y
      ensures |Push(q, e).1.ladder| == 1 && Push(q, e).1.last == q.last
      ensures Holds(Push(q, e).1, y) ==> Holds(q, y) || (y == e && q.last <= e.arrival)
    {
      PushAdds(q, e, y);
    }
    assert |Push(q, e).1.ladder| == 1 by { PushAdds(q, e, e); }
  }

  /** What a dequeue returns or leaves was there before. */
  lemma {:induction false} DequeueShrinks(q: Queue, y: Entry)
    requires Ordered(q)
    ensures var (r, q') := Dequeue(q);
      |q'.ladder| == 1 && (r == Some(y) || Holds(q', y) ==> Holds(q, y))
  {
    DequeueKeepsOrder(q);
    DequeueConserves(q);
    var (r, q') := Dequeue(q);
    OrderedBounds(q');
    OrderedBounds(q);
    HoldsStored(q, y);
    HoldsStored(q', y);
    hide Ordered, Dequeue, Holds, Stored;
  }

  lemma {:induction false} LeftDequeue(q: Queue, ops: seq<Op>, d: seq<Entry>)
    requires Fifo(q, ops) && Left(q, ops, d)
    ensures var (r, q') := Dequeue(q);
      |q'.ladder| == 1 && Left(q', ops, if r.Some? then d + [r.value] else d)
  {
    FifoDequeue(q, ops);
    DequeueSetsLast(q);
    var (r, q') := Dequeue(q);
    hide Dequeue, Ordered, Lexicographic;
    forall y ensures |q'.ladder| == 1 && (r == Some(y) || Holds(q', y) ==> Holds(q, y)) {
      DequeueShrinks(q, y);
    }
    if r.Some? {
      assert Holds(q, r.value);
      LastGrows(q, ops, d);
      LeftExtend(q', ops, d, r.value);
    }
  }

  /** What has left lies before what a dequeue hands out. */
  lemma {:induction false} LastGrows(q: Queue, ops: seq<Op>, d: seq<Entry>)
    requires Ordered(q) && Left(q, ops, d) && Dequeue(q).0.Some? && Holds(q, Dequeue(q).0.value)
    ensures forall x :: x in d ==> Less(x, Dequeue(q).0.value)
  {
  }

  lemma {:induction false} LeftExtend(q: Queue, ops: seq<Op>, d: seq<Entry>, x: Entry)
    requires |q.ladder| == 1 && Lexicographic(d) && x.arrival <= q.last && PushOp(x) in ops
    requires forall y :: y in d ==> PushOp(y) in ops && Less(y, x)
    requires forall y :: Holds(q, y) ==> Less(x, y)
    ensures Left(q, ops, d + [x])
  {
    forall y, z | y in d + [x] && Holds(q, z) ensures Less(y, z) {
      if y in d { assert Less(y, x) && Less(x, z); }
    }
  }

  lemma {:induction false} IgnoresDequeueOp(q: Queue, ops: seq<Op>, d: seq<Entry>)
    requires Fifo(q, ops) && Left(q, ops, d)
    ensures Fifo(q, ops + [DequeueOp]) && Left(q, ops + [DequeueOp], d)
  {
    IgnoresOp(q, ops, DequeueOp);
  }

  // ---- runs ----------------------------------------------------------------------------------

  /** The state of a run: the queue in order, and what has left in order. */
  ghost predicate FifoState(q: Queue, ops: seq<Op>, d: seq<Entry>) {
    Fifo(q, ops) && Left(q, ops, d)
  }

  lemma {:induction false} FifoStep(q: Queue, ops: seq<Op>, op: Op, d: seq<Entry>)
    requires FifoState(q, ops, d)
    requires op.PushOp? ==> op.e.arrival <= DBL_MAX && KeepsTies(q, op.e) && GidOrder(ops + [op])
    ensures q.thres >= 2
    ensures var (out, q') := Step(q, op);
      FifoState(q', ops + [op], if out.DequeueOut? && out.entry.Some? then d + [out.entry.value] else d)
  {
    hide Push, Dequeue;
    match op {
      case PushOp(e) =>
        FifoPush(q, ops, e);
        LeftPush(q, ops, e, d);
      case DequeueOp =>
        FifoDequeue(q, ops);
        LeftDequeue(q, ops, d);
        var (r, q') := Dequeue(q);
        IgnoresDequeueOp(q', ops, if r.Some? then d + [r.value] else d);
    }
  }

  lemma {:induction false} GidOrderPrefix(ops: seq<Op>, k: nat)
    requires GidOrder(ops) && k <= |ops|
    ensures GidOrder(ops[..k])
  {
  }

  /** From a queue in order, a run that keeps ties hands out events in lexicographic order. */
  lemma {:induction false} FifoFrom(q: Queue, ops: seq<Op>, more: seq<Op>)
    requires Fifo(q, ops) && Finite(more) && GidOrder(ops + more) && q.thres >= 2 && NoTieOverflow(q, more)
    ensures FifoState(After(q, more), ops + more, Dequeued(Outputs(q, more)))
  {
    hide Step, FifoState, After, Outputs, KeepsTies, GidOrder;
    if more == [] {
      NothingLeft(q, ops);
      assert ops + more == ops;
    } else {
      var n := |more| - 1;
      var front, op := more[..n], more[n];
      assert more == front + [op] && ops + more == ops + front + [op];
      assert (ops + more)[..|ops| + n] == ops + front;
      GidOrderPrefix(ops + more, |ops| + n);
      FifoFrom(q, ops, front);
      AfterSnoc(q, front, op);
      DequeuedSnoc(Outputs(q, front), Step(After(q, front), op).0);
      FifoStep(After(q, front), ops + front, op, Dequeued(Outputs(q, front)));
    }
  }

  lemma {:induction false} NothingLeft(q: Queue, ops: seq<Op>)
    requires Fifo(q, ops) && q.thres >= 2
    ensures FifoState(After(q, []), ops, Dequeued(Outputs(q, [])))
  {
  }

  lemma {:induction false} FifoInitially(thres: nat)
    requires thres >= 2
    ensures Fifo(Initial(thres), [])
  {
    InitiallyOrdered(thres);
  }

  /** With records pushed in creation order and no overflow that breaks ties, events leave in
      lexicographic order of (arrival, gid): first in, first out on equal times. */
  lemma {:induction false} FifoOnTies(thres: nat, ops: seq<Op>)
    requires thres >= 2 && Finite(ops) && GidOrder(ops) && NoTieOverflow(Initial(thres), ops)
    ensures Lexicographic(Dequeued(Outputs(Initial(thres), ops)))
  {
    FifoInitially(thres);
    assert [] + ops == ops;
    FifoFrom(Initial(thres), [], ops);
  }

  // ---- when ties survive ---------------------------------------------------------------------

  function GidAbove(ops: seq<Op>): (g: nat)
    ensures forall x :: PushOp(x) in ops ==> x.gid < g
  {
    if ops == [] then 0
    else
      var g := GidAbove(ops[..|ops| - 1]);
      if ops[|ops| - 1].PushOp? && ops[|ops| - 1].e.gid >= g then ops[|ops| - 1].e.gid + 1 else g
  }

  /** After an overflow with the front at the last dequeued time, the next event at that time goes to
      Bottom and is handed out before those on the ladder. */
  lemma {:induction false} TieOverflowState(q: Queue, e: Entry, f: Entry)
    requires Ordered(q) && TieOverflow(q, e) && f.arrival == q.last
    ensures var list, q1 := InsertByTime(q.bottom, e), Push(q, e).1;
      && q1.thres == q.thres && q1.bottom == [] && q1.last == q.last && |q1.ladder| == 1
      && q1.ladder[0].events == list && list != []
      && Push(q1, f) == (Accepted, q1.(bottom := [f])) && KeepsTies(q1, f)
  {
    SingleRung(q.ladder);
    InsertByTimeMultiset(q.bottom, e);
    PushBelowTop(q, e);
    var q1 := Push(q, e).1;
    SingleRung(q1.ladder);
    assert InsertByTime([], f) == [f];
  }

  lemma {:induction false} ThenTheOthers(q: Queue, f: Entry)
    requires q.bottom == [f] && |q.ladder| == 1 && q.ladder[0].events != [] && SortedByTime(q.ladder[0].events)
    ensures var (r, q1) := Dequeue(q); var (r', q2) := Dequeue(q1);
      && r == Some(f) && r'.Some? && r'.value in q.ladder[0].events
      && r'.value.arrival == q.ladder[0].events[0].arrival
  {
    var list := q.ladder[0].events;
    var q1 := q.(bottom := [], last := f.arrival);
    assert Dequeue(q) == (Some(f), q1);
    SingleRung(q1.ladder);
    SortCorrect(list);
    MembersOf(Sort(list), list);
    var b := Sort(list);
    assert |multiset(b)| == |multiset(list)|;
    assert b[0] in b && list[0] in list;
    var i :| 0 <= i < |b| && b[i] == list[0];
    var k :| 0 <= k < |list| && list[k] == b[0];
  }

  /** The run that shows it: the tied event, and two dequeues. */
  lemma {:induction false} TieOverflowBreaks(q: Queue, ops: seq<Op>, e: Entry) returns (more: seq<Op>)
    requires Fifo(q, ops) && TieOverflow(q, e) && GidOrder(ops + [PushOp(e)]) && e.arrival <= DBL_MAX
    ensures q.thres >= 2 && Push(q, e).1.thres == q.thres
    ensures Finite(more) && GidOrder(ops + [PushOp(e)] + more) && NoTieOverflow(Push(q, e).1, more)
    ensures !Lexicographic(Dequeued(Outputs(Push(q, e).1, more)))
  {
    hide Push, Dequeue, Lexicographic, KeepsTies, Fifo, TieOverflow;
    var ops' := ops + [PushOp(e)];
    var f := At(q.last, GidAbove(ops'));
    more := [PushOp(f), DequeueOp, DequeueOp];
    FifoIsOrdered(q, ops);
    TieOverflowState(q, e, f);
    TieOverflowFinite(q, e);
    var q1 := Push(q, e).1;
    InsertByTimeSorted(q.bottom, e);
    ThenTheOthers(q1.(bottom := [f]), f);
    NewestGid(ops', more, f);
    ThreeOuts(q1, f);
    var x := Dequeue(Dequeue(q1.(bottom := [f])).1).0.value;
    InsertedBefore(q, ops, e, x);
    TieOverflowFront(q, e);
    NotLexicographic(f, x);
  }

  lemma {:induction false} FifoIsOrdered(q: Queue, ops: seq<Op>)
    requires Fifo(q, ops)
    ensures Ordered(q) && q.thres >= 2 && SortedByTime(q.bottom)
  {
  }

  lemma {:induction false} TieOverflowFront(q: Queue, e: Entry)
    requires TieOverflow(q, e)
    ensures InsertByTime(q.bottom, e)[0].arrival == q.last
  {
  }

  /** What Bottom holds together with the pushed event was pushed before. */
  lemma {:induction false} InsertedBefore(q: Queue, ops: seq<Op>, e: Entry, x: Entry)
    requires Fifo(q, ops) && x in InsertByTime(q.bottom, e)
    ensures PushOp(x) in ops + [PushOp(e)]
  {
    InsertByTimeMember(q.bottom, e, x);
    var ops' := ops + [PushOp(e)];
    assert ops'[|ops|] == PushOp(e);
    assert x != e ==> Holds(q, x);
  }

  lemma {:induction false} NotLexicographic(f: Entry, x: Entry)
    requires f.arrival == x.arrival && x.gid < f.gid
    ensures !Lexicographic([f, x])
  {
    assert !Less([f, x][0], [f, x][1]);
  }

  lemma {:induction false} TieOverflowFinite(q: Queue, e: Entry)
    requires Ordered(q) && TieOverflow(q, e) && e.arrival <= DBL_MAX
    ensures q.last <= DBL_MAX
  {
  }

  lemma {:induction false} NewestGid(ops: seq<Op>, more: seq<Op>, f: Entry)
    requires GidOrder(ops) && f.gid == GidAbove(ops) && more == [PushOp(f), DequeueOp, DequeueOp]
    ensures GidOrder(ops + more)
  {
    forall i, j | 0 <= i < j < |ops + more| && (ops + more)[i].PushOp? && (ops + more)[j].PushOp?
      ensures (ops + more)[i].e.gid < (ops + more)[j].e.gid
    {
      if j >= |ops| { assert ops[i] in ops; }
    }
  }

  lemma {:induction false} ThreeOuts(q: Queue, f: Entry)
    requires q.thres >= 2 && Push(q, f) == (Accepted, q.(bottom := [f])) && KeepsTies(q, f)
    requires Dequeue(q.(bottom := [f])).0.Some? && Dequeue(Dequeue(q.(bottom := [f])).1).0.Some?
    ensures var ops, q1 := [PushOp(f), DequeueOp, DequeueOp], q.(bottom := [f]);
      && NoTieOverflow(q, ops)
      && Dequeued(Outputs(q, ops)) == [Dequeue(q1).0.value, Dequeue(Dequeue(q1).1).0.value]
  {
    hide Push, Dequeue, KeepsTies;
    var a, b, c := [PushOp(f)], [PushOp(f), DequeueOp], [PushOp(f), DequeueOp, DequeueOp];
    assert a == [] + [PushOp(f)] && b == a + [DequeueOp] && c == b + [DequeueOp];
    assert After(q, []) == q && Outputs(q, []) == [] && NoTieOverflow(q, []);
    AfterSnoc(q, [], PushOp(f));
    AfterSnoc(q, a, DequeueOp);
    AfterSnoc(q, b, DequeueOp);
    assert a[..0] == [] && b[..1] == a && c[..2] == b;
    assert After(q, a[..0]) == q && NoTieOverflow(q, a[..0]);
    assert NoTieOverflow(q, a);
    assert NoTieOverflow(q, b);
    var q1 := q.(bottom := [f]);
    DequeuedSnoc([], PushOut(Accepted));
    DequeuedSnoc(Outputs(q, a), DequeueOut(Dequeue(q1).0));
    DequeuedSnoc(Outputs(q, b), DequeueOut(Dequeue(Dequeue(q1).1).0));
    assert Dequeued([]) == [];
  }

  /** From a queue in order, and for a push that does not take the pushBack branch: whatever follows
      leaves in order of (arrival, gid) if and only if the push does not make Bottom overflow with
      its front at the last dequeued time. */
  lemma {:induction false} FifoSurvivesIff(q: Queue, ops: seq<Op>, e: Entry)
    requires Fifo(q, ops) && !TakesPushBack(q, e) && e.arrival <= DBL_MAX && GidOrder(ops + [PushOp(e)])
    ensures q.thres >= 2 && Push(q, e).1.thres == q.thres
    ensures (forall more: seq<Op> ::
        Finite(more) && GidOrder(ops + [PushOp(e)] + more) && NoTieOverflow(Push(q, e).1, more) ==>
        Lexicographic(Dequeued(Outputs(Push(q, e).1, more))))
      <==> !TieOverflow(q, e)
  {
    OrderedBounds(q);
    PushKeepsThres(q, e);
    if TieOverflow(q, e) {
      var more := TieOverflowBreaks(q, ops, e);
    } else {
      FifoPush(q, ops, e);
      var q1, ops' := Push(q, e).1, ops + [PushOp(e)];
      forall more: seq<Op> | Finite(more) && GidOrder(ops' + more) && NoTieOverflow(q1, more)
        ensures Lexicographic(Dequeued(Outputs(q1, more)))
      {
        FifoFrom(q1, ops', more);
      }
    }
  }
}
