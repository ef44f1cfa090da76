/** The event list itself: three tiers and the hand-over of lists between them. */
module LadderQueues {
  import opened Entries
  import opened EventLists
  import opened LadderSpec
  import opened QueueSpec
  import opened QueueTheorems
  import QueueOrder
  import opened Tiers
  import opened Ladders

  class LadderQueue {
    const top: Top
    const ladder: Ladder
    const bottom: Bottom

    ghost predicate Valid()
      reads this, top, top.fifo, ladder, bottom, bottom.list
    {
      && top.fifo != bottom.list
      && top.Valid() && ladder.Valid()
      && SortedByTime(bottom.list.s)
    }

    ghost function View(): Queue
      requires Valid()
      reads this, top, top.fifo, ladder, bottom, bottom.list
    {
      Queue(ladder.thres, top.fifo.s, top.topStart, ladder.Live(), bottom.list.s, bottom.lastEvent)
    }

    constructor ()
      ensures Valid() && View() == Initial(DEFAULT_THRES)
      ensures fresh(top) && fresh(top.fifo) && fresh(ladder) && fresh(bottom) && fresh(bottom.list)
    {
      top := new Top();
      ladder := new Ladder(DEFAULT_THRES);
      bottom := new Bottom();
    }

    /** LadderQueue::push: Top by its start, Bottom by its range, else the ladder, and Bottom
        again if the ladder throws. Bottom's own exception reaches the caller. */
    method Push(e: Entry) returns (error: Option<QueueError>)
      requires Valid()
      modifies top, top.fifo, ladder, bottom, bottom.list
      ensures Valid()
      ensures error == if QueueSpec.Push(old(View()), e).0 == Accepted then None else Some(PastEventNotAllowed)
      ensures View() == QueueSpec.Push(old(View()), e).1
    {
      if e.arrival >= top.topStart {
        top.Push(e);
        error := None;
      } else {
        error := PushBelowTop(e);
      }
    }

    /** An event before Top's start: Bottom, the ladder, or Bottom again. */
    method PushBelowTop(e: Entry) returns (error: Option<QueueError>)
      requires Valid() && e.arrival < top.topStart
      modifies ladder, bottom, bottom.list
      ensures Valid()
      ensures error == if QueueSpec.Push(old(View()), e).0 == Accepted then None else Some(PastEventNotAllowed)
      ensures View() == QueueSpec.Push(old(View()), e).1
    {
      hide Relieve, InsertByTime, Insert, QueueSpec.Push;
      QueueSpec.PushBelowTop(View(), e);
      if e.arrival <= bottom.GetMaxTS() && e.arrival >= bottom.GetMinTS() {
        error := PushBottom(e);
      } else {
        error := PushLadder(e);
      }
    }

    /** An event out of Bottom's range: the ladder, or Bottom if the ladder throws. */
    method PushLadder(e: Entry) returns (error: Option<QueueError>)
      requires Valid() && e.arrival < top.topStart && !WithinBottom(View(), e)
      modifies ladder, bottom, bottom.list
      ensures Valid()
      ensures error == if QueueSpec.Push(old(View()), e).0 == Accepted then None else Some(PastEventNotAllowed)
      ensures View() == QueueSpec.Push(old(View()), e).1
    {
      hide Relieve, InsertByTime, Insert, QueueSpec.Push;
      QueueSpec.PushBelowTop(View(), e);
      var ladderError := ladder.PushEntry(e);
      if ladderError.Some? {
        error := PushBottom(e);
      } else {
        error := None;
      }
    }

    /** Bottom takes the event; if that is too many, its list goes to the ladder: as an epoch
        if the ladder is empty, by pushBack otherwise, which may fail. */
    method PushBottom(e: Entry) returns (error: Option<QueueError>)
      requires Valid()
      modifies ladder, bottom.list
      ensures Valid()
      ensures error == if e.arrival < old(View()).last then Some(PastEventNotAllowed) else None
      ensures View() == if error.Some? then old(View())
                        else Relieve(old(View()).(bottom := InsertByTime(old(View()).bottom, e)))
    {
      hide InsertByTime;
      ghost var q := View();
      InsertByTimeSorted(bottom.list.s, e);
      error := bottom.Push(e);
      if error.Some? {
        return;
      }
      if |bottom.list.s| > ladder.thres {
        if ladder.nbc == 0 {
          var max, min := bottom.GetMaxTS(), bottom.GetMinTS();
          var _ := ladder.PushEpoch(bottom.list, max, min);
        } else {
          var _ := ladder.PushBack(bottom.list);
        }
      }
    }

    /** LadderQueue::dequeue: from Bottom, refilled from the ladder, refilled from Top. */
    method Dequeue() returns (r: Option<Entry>)
      requires Valid()
      modifies top, top.fifo, ladder, bottom, bottom.list
      ensures Valid()
      ensures (r, View()) == QueueSpec.Dequeue(old(View()))
    {
      if |bottom.list.s| > 0 {
        r := PopBottom();
      } else if ladder.nbc > 0 {
        LadderToBottom();
        r := PopBottom();
      } else {
        if |top.fifo.s| > 0 {
          TopToLadder();
          LadderToBottom();
          r := PopBottom();
        } else {
          r := None;
        }
      }
    }

    method PopBottom() returns (r: Option<Entry>)
      requires Valid() && bottom.list.s != []
      modifies bottom, bottom.list
      ensures Valid() && r == Some(old(bottom.list.s)[0])
      ensures View() == old(View()).(bottom := old(bottom.list.s)[1..], last := old(bottom.list.s)[0].arrival)
    {
      r := bottom.Front();
      var _ := bottom.PopFront();
    }

    /** The ladder's next list is sorted and merged into Bottom. */
    method LadderToBottom()
      requires Valid() && ladder.nbc > 0
      modifies ladder, bottom.list
      ensures Valid() && View() == QueueSpec.LadderToBottom(old(View()))
      ensures bottom.list.s != []
    {
      LadderToBottomConserves(View());
      var list := ladder.Delist();
      SortCorrect(list.s);
      MergeSorted(bottom.list.s, Sort(list.s));
      bottom.PushList(list);
    }

    /** Top's whole list starts an epoch, and Top is reset. */
    method TopToLadder()
      requires Valid() && ladder.nbc == 0 && top.fifo.s != []
      modifies top, top.fifo, ladder
      ensures Valid() && View() == QueueSpec.TopToLadder(old(View()))
      ensures ladder.nbc > 0
    {
      var max, min := top.maxTS, top.minTS;
      MinMaxBound(top.fifo.s);
      assert top.fifo.s[0] in top.fifo.s;
      EpochContents(top.fifo.s, max, min);
      var list := top.Delist();
      var _ := ladder.PushEpoch(list, max, min);
      var _ := top.Reset();
    }

    /** One operation of a run. */
    method Serve(op: Op) returns (out: Out)
      requires Valid()
      modifies top, top.fifo, ladder, bottom, bottom.list
      ensures Valid() && (out, View()) == Step(old(View()), op)
    {
      match op {
        case PushOp(e) =>
          var error := Push(e);
          out := PushOut(if error.None? then Accepted else Rejected);
        case DequeueOp =>
          var r := Dequeue();
          out := DequeueOut(r);
      }
    }

    method Size() returns (n: nat)
      requires Valid()
      ensures n == StoredSize(View()) == |Stored(View())|
    {
      n := |top.fifo.s| + ladder.nbc + |bottom.list.s|;
      SizeIsCardinality(ladder.Live());
    }
  }

  /** Any sequence of pushes and dequeues on a new ladder queue: accepted events are those
      handed out plus those left, and while the pushBack branch is avoided the answers are those
      of a sorted multiset, at non-decreasing times. */
  method Run(ops: seq<Op>) returns (outs: seq<Out>, left: nat)
    ensures outs == Outputs(Initial(DEFAULT_THRES), ops)
    ensures |AcceptedIn(ops, outs)| == |Dequeued(outs)| + left
    ensures multiset(Dequeued(outs)) <= AcceptedIn(ops, outs)
    ensures left == 0 ==> multiset(Dequeued(outs)) == AcceptedIn(ops, outs)
    ensures Finite(ops) && NoPushBack(Initial(DEFAULT_THRES), ops) ==>
      Refines(EMPTY_REFERENCE, ops, outs) && SortedByTime(Dequeued(outs))
  {
    hide Step, After, Outputs;
    var queue := new LadderQueue();
    ghost var q := Initial(DEFAULT_THRES);
    outs := [];
    EmptyRun(q);
    for i := 0 to |ops|
      invariant queue.Valid() && queue.View() == After(q, ops[..i])
      invariant outs == Outputs(q, ops[..i])
      invariant fresh(queue.top) && fresh(queue.top.fifo) && fresh(queue.ladder)
      invariant fresh(queue.bottom) && fresh(queue.bottom.list)
    {
      var out := queue.Serve(ops[i]);
      QueueOrder.AfterSnoc(q, ops[..i], ops[i]);
      assert ops[..i + 1] == ops[..i] + [ops[i]];
      outs := outs + [out];
    }
    assert ops[..|ops|] == ops;
    left := queue.Size();
    Conservation(DEFAULT_THRES, ops);
    if Finite(ops) && NoPushBack(q, ops) {
      RefinesSortedMultiset(DEFAULT_THRES, ops);
      QueueOrder.DequeueTimesMonotone(DEFAULT_THRES, ops);
    }
  }

  lemma {:induction false} EmptyRun(q: Queue)
    requires q.thres >= 2
    ensures After(q, []) == q && Outputs(q, []) == []
  {
  }
}
