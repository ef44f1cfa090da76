/** What the ladder queue guarantees over whole runs, starting empty. */
module QueueTheorems {
  import opened Entries
  import opened EventLists
  import opened LadderSpec
  import opened QueueSpec

  // ---- conservation: every run, pushBack included ------------------------------------

  lemma {:induction false} RelieveConserves(q: Queue)
    requires q.thres >= 2
    ensures Stored(Relieve(q)) == Stored(q) && StoredSize(Relieve(q)) == StoredSize(q)
  {
    SizeIsCardinality(q.ladder);
    if |q.bottom| > q.thres {
      if Size(q.ladder) == 0 {
        EpochContents(q.bottom, BottomMax(q), BottomMin(q));
      } else if |q.ladder| < MAX_RUNGS {
        PushBackContents(q.ladder, q.thres, q.bottom);
      }
    }
  }

  /** An accepted event is stored exactly once, a rejected one changes nothing. */
  lemma {:induction false} PushConserves(q: Queue, e: Entry)
    requires q.thres >= 2
    ensures var (r, q') := Push(q, e);
      && (r == Rejected ==> q' == q)
      && (r == Accepted ==> Stored(q') == Stored(q) + multiset{e} && StoredSize(q') == StoredSize(q) + 1)
  {
    if e.arrival < q.topStart {
      PushBelowTop(q, e);
      hide Push, Relieve, OfferedToBottom, Contents, InsertByTime;
      if !OfferedToBottom(q, e) {
        PutContents(q.ladder, FindRung(q.ladder, e.arrival, 0), [e]);
      } else if e.arrival >= q.last {
        var q1 := q.(bottom := InsertByTime(q.bottom, e));
        InsertByTimeMultiset(q.bottom, e);
        assert Stored(q1) == Stored(q) + multiset{e};
        RelieveConserves(q1);
      }
    }
  }

  /** A push that goes to Bottom leaves at most as many events there as the threshold allows: it empties
      Bottom onto the ladder if it would hold more, unless all rungs are in use. No other push
      changes Bottom. */
  lemma {:induction false} BottomStaysShort(q: Queue, e: Entry)
    requires q.thres >= 2
    ensures var q' := Push(q, e).1;
      if !OfferedToBottom(q, e) || e.arrival < q.last then q'.bottom == q.bottom
      else if |q.bottom| < q.thres || (Size(q.ladder) > 0 && |q.ladder| >= MAX_RUNGS) then
        |q'.bottom| == |q.bottom| + 1 && q'.ladder == q.ladder
      else
        && q'.bottom == [] && Size(q'.ladder) == Size(q.ladder) + |q.bottom| + 1
        && |q'.ladder| == if Size(q.ladder) == 0 then 1 else |q.ladder| + 1
  {
    if e.arrival < q.topStart {
      PushBelowTop(q, e);
      InsertByTimeMultiset(q.bottom, e);
      var list := InsertByTime(q.bottom, e);
      assert |list| == |multiset(list)| == |q.bottom| + 1;
      hide Push, OfferedToBottom, InsertByTime;
      PushBackContents(q.ladder, q.thres, list);
      EpochContents(list, BottomMax(q.(bottom := list)), BottomMin(q.(bottom := list)));
    }
  }

  /** After Top has become an epoch of n events between min and max, it starts anew where n + 1 buckets
      of the epoch end; where min and max are the same, at that time. */
  lemma {:induction false} TopStartsPastEpoch(top: seq<Entry>)
    requires top != []
    ensures var n, max, min := |top|, MaxTS(top), MinTS(top); var width := BucketWidth(max, min, n);
      && (max > min ==> n as real * width == max - min && NextTopStart(top) == min + (n + 1) as real * width)
      && (max <= min ==> NextTopStart(top) == max)
  {
    WidthsSpan(MaxTS(top), MinTS(top), |top|);
    var n, w := |top| as real, BucketWidth(MaxTS(top), MinTS(top), |top|);
    assert (n + 1.0) * w == n * w + w;
  }

  lemma {:induction false} LadderToBottomConserves(q: Queue)
    ensures Stored(LadderToBottom(q)) == Stored(q) && StoredSize(LadderToBottom(q)) == StoredSize(q)
    ensures Size(q.ladder) > 0 ==> LadderToBottom(q).bottom != []
  {
    DelistContents(q.ladder, q.thres);
    var list := Delist(q.ladder, q.thres).0;
    SortCorrect(list);
    MergeMultiset(q.bottom, Sort(list));
    assert |Merge(q.bottom, Sort(list))| == |multiset(q.bottom) + multiset(list)|;
  }

  lemma {:induction false} RefillConserves(q: Queue)
    ensures Stored(Refill(q)) == Stored(q) && StoredSize(Refill(q)) == StoredSize(q)
    ensures Refill(q).bottom == [] ==> Stored(q) == multiset{}
  {
    SizeIsCardinality(q.ladder);
    if q.bottom == [] {
      if Size(q.ladder) > 0 {
        LadderToBottomConserves(q);
      } else if q.top != [] {
        EpochContents(q.top, MaxTS(q.top), MinTS(q.top));
        assert Stored(TopToLadder(q)) == Stored(q);
        LadderToBottomConserves(TopToLadder(q));
      }
    }
  }

  /** Dequeue answers None exactly when nothing is stored, and otherwise takes out one event. */
  lemma {:induction false} DequeueConserves(q: Queue)
    ensures var (r, q') := Dequeue(q);
      && (r.None? <==> Stored(q) == multiset{})
      && (r.Some? ==> r.value in Stored(q) && Stored(q') == Stored(q) - multiset{r.value}
                      && StoredSize(q') + 1 == StoredSize(q))
      && (r.None? ==> Stored(q') == Stored(q))
  {
    RefillConserves(q);
    var r := Refill(q);
    if r.bottom != [] {
      assert r.bottom == [r.bottom[0]] + r.bottom[1..];
    }
  }

  /** In every run the accepted events are those handed out plus those still stored. */
  lemma {:induction false} Conservation(thres: nat, ops: seq<Op>)
    requires thres >= 2
    ensures var outs := Outputs(Initial(thres), ops);
      AcceptedIn(ops, outs) == multiset(Dequeued(outs)) + Stored(After(Initial(thres), ops))
  {
    var q := Initial(thres);
    if ops == [] {
      assert Size(q.ladder[..0]) == 0;
      assert Contents(q.ladder) == multiset{};
    } else {
      hide Step, Stored, AcceptedIn, Dequeued;
      var n := |ops| - 1;
      Conservation(thres, ops[..n]);
      var p, outs := After(q, ops[..n]), Outputs(q, ops);
      assert outs[..n] == Outputs(q, ops[..n]);
      StepConserves(p, ops[n]);
      AcceptedSnoc(ops, outs);
      OutsSnoc(outs);
      Balance(AcceptedIn(ops[..n], outs[..n]), multiset(Dequeued(outs[..n])), Stored(p), Stored(After(q, ops)),
        Incoming(ops[n], outs[n]), Outgoing(outs[n]));
    }
  }

  /** The event that an answer accepts, and the one it hands out. */
  function Incoming(op: Op, out: Out): multiset<Entry> {
    if op.PushOp? && out == PushOut(Accepted) then multiset{op.e} else multiset{}
  }

  function Outgoing(out: Out): multiset<Entry> {
    if out.DequeueOut? && out.entry.Some? then multiset{out.entry.value} else multiset{}
  }

  lemma {:induction false} Balance(accepted: multiset<Entry>, gone: multiset<Entry>, stored: multiset<Entry>,
    stored': multiset<Entry>, incoming: multiset<Entry>, outgoing: multiset<Entry>)
    requires accepted == gone + stored && stored + incoming == stored' + outgoing
    ensures accepted + incoming == (gone + outgoing) + stored'
  {
    assert accepted + incoming == gone + (stored + incoming);
    assert gone + (stored' + outgoing) == (gone + outgoing) + stored';
  }

  lemma {:induction false} AcceptedSnoc(ops: seq<Op>, outs: seq<Out>)
    requires |ops| == |outs| > 0
    ensures var n := |ops| - 1;
      AcceptedIn(ops, outs) == AcceptedIn(ops[..n], outs[..n]) + Incoming(ops[n], outs[n])
  {
  }

  /** One operation: what it accepts comes in, what it hands out goes. */
  lemma {:induction false} StepConserves(q: Queue, op: Op)
    requires q.thres >= 2
    ensures var (out, q') := Step(q, op);
      Stored(q) + Incoming(op, out) == Stored(q') + Outgoing(out)
  {
    hide Push, Dequeue, Stored;
    match op {
      case PushOp(e) => PushConserves(q, e);
      case DequeueOp => DequeueConserves(q);
    }
  }

  lemma {:induction false} OutsSnoc(outs: seq<Out>)
    requires outs != []
    ensures var n := |outs| - 1;
      multiset(Dequeued(outs)) == multiset(Dequeued(outs[..n])) + Outgoing(outs[n])
  {
  }

  // ---- order: every run that avoids the pushBack branch ------------------------------

  /** No push of the run finds Bottom overflowing onto an occupied ladder. */
  predicate NoPushBack(q: Queue, ops: seq<Op>)
    requires q.thres >= 2
  {
    ops == [] ||
    (var n := |ops| - 1;
     && NoPushBack(q, ops[..n])
     && (ops[n].PushOp? ==> !TakesPushBack(After(q, ops[..n]), ops[n].e)))
  }

  /** Timestamps are finite doubles. */
  predicate Finite(ops: seq<Op>) {
    forall k :: 0 <= k < |ops| && ops[k].PushOp? ==> ops[k].e.arrival <= DBL_MAX
  }

  /** A sorted multiset with the time of its last removal. */
  datatype Reference = Reference(stored: multiset<Entry>, last: real)

  ghost predicate Allows(ref: Reference, op: Op, out: Out) {
    match op
    case PushOp(e) => out == PushOut(if e.arrival < ref.last then Rejected else Accepted)
    case DequeueOp =>
      && out.DequeueOut?
      && match out.entry
         case None => ref.stored == multiset{}
         case Some(x) => x in ref.stored && forall y :: y in ref.stored ==> x.arrival <= y.arrival
  }

  function Next(ref: Reference, op: Op, out: Out): Reference {
    match (op, out)
    case (PushOp(e), PushOut(Accepted)) => ref.(stored := ref.stored + multiset{e})
    case (DequeueOp, DequeueOut(Some(x))) => Reference(ref.stored - multiset{x}, x.arrival)
    case _ => ref
  }

  /** The multiset of a new queue. */
  const EMPTY_REFERENCE := Reference(multiset{}, 0.0)

  /** A queue as the sorted multiset it should behave like. */
  function Abstract(q: Queue): Reference { Reference(Stored(q), q.last) }

  function ReferenceAfter(ref: Reference, ops: seq<Op>, outs: seq<Out>): Reference
    requires |ops| == |outs|
  {
    if ops == [] then ref
    else
      var n := |ops| - 1;
      Next(ReferenceAfter(ref, ops[..n], outs[..n]), ops[n], outs[n])
  }

  /** Every answer of a run from `ref` is one the sorted multiset allows. */
  ghost predicate Refines(ref: Reference, ops: seq<Op>, outs: seq<Out>)
    requires |ops| == |outs|
  {
    ops == [] ||
    (var n := |ops| - 1;
     && Refines(ref, ops[..n], outs[..n])
     && Allows(ReferenceAfter(ref, ops[..n], outs[..n]), ops[n], outs[n]))
  }

  ghost predicate AllWithin(s: seq<Entry>, lo: real, hi: real) {
    forall x :: x in s ==> lo <= x.arrival <= hi
  }

  /** Last dequeued <= Bottom <= first rung <= topStart <= Top. */
  ghost predicate Ordered(q: Queue) {
    && q.thres >= 2
    && |q.ladder| == 1
    && 0.0 <= q.last <= q.topStart
    && SortedByTime(q.bottom)
    && AllWithin(q.bottom, q.last, q.topStart)
    && (Size(q.ladder) > 0 ==>
         && q.ladder[0].width > 0.0
         && q.last <= q.ladder[0].cur
         && AllWithin(q.bottom, q.last, q.ladder[0].cur)
         && AllWithin(q.ladder[0].events, q.ladder[0].cur, q.topStart))
    && AllWithin(q.top, q.topStart, DBL_MAX)
  }

  lemma {:induction false} MinMaxBound(s: seq<Entry>)
    ensures AllWithin(s, MinTS(s), MaxTS(s)) && MaxTS(s) >= 0.0
  {
    if s == [] {
    } else {
      MinMaxBound(s[..|s| - 1]);
      assert s == s[..|s| - 1] + [s[|s| - 1]];
    }
  }

  lemma {:induction false} MinAtLeast(s: seq<Entry>, lo: real)
    requires lo <= DBL_MAX && forall x :: x in s ==> lo <= x.arrival
    ensures lo <= MinTS(s)
  {
    if s == [] {
    } else {
      MinAtLeast(s[..|s| - 1], lo);
    }
  }

  lemma {:induction false} SingleRung(rs: Rungs)
    requires |rs| == 1
    ensures Size(rs) == |rs[0].events| && Contents(rs) == multiset(rs[0].events)
  {
    assert Size(rs[..0]) == 0 && Contents(rs[..0]) == multiset{};
  }

  lemma {:induction false} MembersOf(s: seq<Entry>, r: seq<Entry>)
    requires multiset(s) == multiset(r)
    ensures forall x :: x in s <==> x in r
  {
    forall x ensures x in s <==> x in r {
      assert x in s <==> x in multiset(s);
      assert x in r <==> x in multiset(r);
    }
  }

  /** A list inside its bounds becomes an epoch, leaving Bottom empty. */
  lemma {:induction false} EpochKeepsOrder(q: Queue, list: seq<Entry>, max: real, min: real, r: Queue)
    requires q.thres >= 2 && list != [] && 0.0 <= q.last <= min <= max <= r.topStart
    requires AllWithin(list, min, max)
    requires AllWithin(r.top, r.topStart, DBL_MAX)
    requires r == Queue(q.thres, r.top, r.topStart, Epoch(list, max, min), [], q.last)
    ensures Ordered(r)
  {
    WidthIsPositive(max, min, |list|);
    SingleRung(r.ladder);
  }

  lemma {:induction false} BottomInsertKeepsOrder(q: Queue, e: Entry)
    requires Ordered(q) && e.arrival < q.topStart && OfferedToBottom(q, e)
    requires e.arrival >= q.last && !TakesPushBack(q, e)
    ensures Ordered(Relieve(q.(bottom := InsertByTime(q.bottom, e))))
  {
    SingleRung(q.ladder);
    var b := InsertByTime(q.bottom, e);
    InsertByTimeSorted(q.bottom, e);
    InsertByTimeMultiset(q.bottom, e);
    forall x | x in b ensures x == e || x in q.bottom { InsertByTimeMember(q.bottom, e, x); }
    if |b| > q.thres {
      assert b[0] in b && b[|b| - 1] in b;
      var q1 := q.(bottom := b);
      EpochKeepsOrder(q, b, b[|b| - 1].arrival, b[0].arrival, Relieve(q1));
    }
  }

  lemma {:induction false} PushKeepsOrder(q: Queue, e: Entry)
    requires Ordered(q) && e.arrival <= DBL_MAX && !TakesPushBack(q, e)
    ensures Ordered(Push(q, e).1)
    ensures Push(q, e).0 == Rejected <==> e.arrival < q.last
  {
    SingleRung(q.ladder);
    if e.arrival < q.topStart {
      if OfferedToBottom(q, e) {
        if e.arrival >= q.last { BottomInsertKeepsOrder(q, e); }
      } else {
        SingleRung(Put(q.ladder, 0, [e]));
      }
    }
  }

  lemma {:induction false} LadderToBottomKeepsOrder(q: Queue)
    requires Ordered(q) && q.bottom == []
    ensures Ordered(LadderToBottom(q)) && Size(LadderToBottom(q).ladder) == 0
  {
    var (list, rest) := Delist(q.ladder, q.thres);
    SingleRung(q.ladder);
    SingleRung(rest);
    SortCorrect(list);
    MembersOf(Sort(list), list);
  }

  lemma {:induction false} TopToLadderKeepsOrder(q: Queue)
    requires Ordered(q) && q.bottom == [] && Size(q.ladder) == 0 && q.top != []
    requires q.topStart <= DBL_MAX
    ensures Ordered(TopToLadder(q))
  {
    var r := TopToLadder(q);
    MinMaxBound(q.top);
    MinAtLeast(q.top, q.topStart);
    assert NextTopStart(q.top) >= MaxTS(q.top) by {
      var max, min := MaxTS(q.top), MinTS(q.top);
      if max > min { WidthIsPositive(max, min, |q.top|); }
    }
    assert q.top[0] in q.top;
    EpochKeepsOrder(q, q.top, MaxTS(q.top), MinTS(q.top), r);
  }

  /** Refilling keeps the order, and leaves Bottom empty only if nothing is stored. */
  lemma {:induction false} RefillKeepsOrder(q: Queue)
    requires Ordered(q)
    ensures Ordered(Refill(q))
  {
    hide Ordered;
    OrderedParts(q);
    if q.bottom == [] {
      if Size(q.ladder) > 0 {
        LadderToBottomKeepsOrder(q);
      } else if q.top != [] {
        TopToLadderKeepsOrder(q);
        LadderToBottomKeepsOrder(TopToLadder(q));
      }
    }
  }

  lemma {:induction false} OrderedParts(q: Queue)
    requires Ordered(q)
    ensures q.thres >= 2 && |q.ladder| == 1
    ensures q.top != [] ==> q.topStart <= DBL_MAX
  {
    if q.top != [] { assert q.top[0] in q.top; }
  }

  /** In an ordered queue Bottom's front comes before everything stored. */
  lemma {:induction false} FrontIsLeast(q: Queue)
    requires Ordered(q) && q.bottom != []
    ensures forall y :: y in Stored(q) ==> q.bottom[0].arrival <= y.arrival
    ensures Ordered(q.(bottom := q.bottom[1..], last := q.bottom[0].arrival))
  {
    SingleRung(q.ladder);
    var b := q.bottom;
    assert b[0] in b;
    forall y | y in Stored(q) ensures b[0].arrival <= y.arrival {
      assert y in q.top || y in q.ladder[0].events || y in b;
    }
    forall x | x in b[1..] ensures x in b && b[0].arrival <= x.arrival {}
  }

  lemma {:induction false} DequeueKeepsOrder(q: Queue)
    requires Ordered(q)
    ensures Ordered(Dequeue(q).1)
    ensures Dequeue(q).0.Some? ==>
      && forall y :: y in Stored(q) ==> Dequeue(q).0.value.arrival <= y.arrival
  {
    hide Ordered, Refill, Stored;
    RefillKeepsOrder(q);
    RefillConserves(q);
    if Refill(q).bottom != [] { FrontIsLeast(Refill(q)); }
  }

  lemma {:induction false} PushKeepsLast(q: Queue, e: Entry)
    requires q.thres >= 2
    ensures Push(q, e).1.last == q.last
  {
    hide Insert, OfferedToBottom, Epoch, PushBack;
  }

  lemma {:induction false} PushKeepsThres(q: Queue, e: Entry)
    requires q.thres >= 2
    ensures Push(q, e).1.thres == q.thres
  {
  }

  lemma {:induction false} DequeueSetsLast(q: Queue)
    ensures var (r, q') := Dequeue(q); q'.last == if r.Some? then r.value.arrival else q.last
  {
    hide Delist, Epoch, NextTopStart;
  }

  lemma {:induction false} PushRefines(q: Queue, e: Entry)
    requires Ordered(q) && e.arrival <= DBL_MAX && !TakesPushBack(q, e)
    ensures var (out, q') := Step(q, PushOp(e));
      && Allows(Abstract(q), PushOp(e), out)
      && Next(Abstract(q), PushOp(e), out) == Abstract(q')
      && Ordered(q')
  {
    assert q.thres >= 2;
    hide Ordered, Push, Stored;
    PushKeepsOrder(q, e);
    PushConserves(q, e);
    PushKeepsLast(q, e);
  }

  lemma {:induction false} DequeueRefines(q: Queue)
    requires Ordered(q)
    ensures var (out, q') := Step(q, DequeueOp);
      && Allows(Abstract(q), DequeueOp, out)
      && Next(Abstract(q), DequeueOp, out) == Abstract(q')
      && Ordered(q')
  {
    DequeueKeepsOrder(q);
    DequeueConserves(q);
  }

  /** From any queue in order, a run that avoids the pushBack branch answers like the sorted
      multiset and leaves a queue in order. */
  lemma {:induction false} OrderedRefines(q: Queue, ops: seq<Op>)
    requires Ordered(q) && Finite(ops) && NoPushBack(q, ops)
    ensures Refines(Abstract(q), ops, Outputs(q, ops))
    ensures ReferenceAfter(Abstract(q), ops, Outputs(q, ops)) == Abstract(After(q, ops))
    ensures Ordered(After(q, ops))
  {
    assert q.thres >= 2;
    hide Ordered, Step, Stored, Allows, Next;
    if ops == [] {
    } else {
      var n := |ops| - 1;
      OrderedRefines(q, ops[..n]);
      var p, outs := After(q, ops[..n]), Outputs(q, ops);
      assert outs[..n] == Outputs(q, ops[..n]);
      match ops[n] {
        case PushOp(e) => PushRefines(p, e);
        case DequeueOp => DequeueRefines(p);
      }
    }
  }

  lemma {:induction false} InitiallyOrdered(thres: nat)
    requires thres >= 2
    ensures Ordered(Initial(thres)) && Abstract(Initial(thres)) == EMPTY_REFERENCE
  {
    SingleRung(Initial(thres).ladder);
  }

  /** In every run that avoids the pushBack branch the queue answers like a sorted multiset:
      each dequeue returns an event of least arrival, and a push is rejected exactly when it
      lies before the last dequeued time. */
  lemma {:induction false} RefinesSortedMultiset(thres: nat, ops: seq<Op>)
    requires thres >= 2 && Finite(ops)
    requires NoPushBack(Initial(thres), ops)
    ensures var outs, q := Outputs(Initial(thres), ops), After(Initial(thres), ops);
      && Refines(EMPTY_REFERENCE, ops, outs)
      && ReferenceAfter(EMPTY_REFERENCE, ops, outs) == Abstract(q)
      && Ordered(q)
  {
    InitiallyOrdered(thres);
    OrderedRefines(Initial(thres), ops);
  }
}
