/** The ladder queue as the handlers and the event processor use it: a collection of pending
    events, handed out in time order as long as no push takes the pushBack branch. */
module EventQueues {
  import opened Entries
  import opened EventLists
  import opened LadderSpec
  import opened QueueSpec
  import opened QueueTheorems
  import opened LadderQueues
  import Network

  class EventQueue {
    const ladderQueue: LadderQueue
    ghost var pending: seq<Entry>
    /** Every push so far had a finite time and avoided the pushBack branch. */
    ghost var inOrder: bool

    ghost function Footprint(): set<object> {
      {this, ladderQueue.top, ladderQueue.top.fifo, ladderQueue.ladder, ladderQueue.bottom, ladderQueue.bottom.list}
    }

    ghost predicate Valid()
      reads Footprint(), ladderQueue
    {
      && ladderQueue.Valid() && ladderQueue.ladder.thres == DEFAULT_THRES
      && multiset(pending) == Stored(ladderQueue.View())
      && (inOrder ==> Ordered(ladderQueue.View()))
    }

    /** The time of the last event handed out. */
    ghost function Last(): real
      reads ladderQueue.bottom
    {
      ladderQueue.bottom.lastEvent
    }

    constructor ()
      ensures Valid() && pending == [] && inOrder && Last() == 0.0
      ensures fresh(Footprint())
    {
      ladderQueue := new LadderQueue();
      pending := [];
      inOrder := true;
      new;
      InitiallyOrdered(DEFAULT_THRES);
    }

    /** A push is refused only for an event from the past, and then nothing changes. */
    method Push(e: Entry) returns (ok: bool)
      requires Valid()
      modifies Footprint()
      ensures Valid() && Last() == old(Last())
      ensures pending == if ok then old(pending) + [e] else old(pending)
      ensures e.arrival >= Last() ==> ok
      ensures inOrder == (old(inOrder) && e.arrival <= DBL_MAX && !TakesPushBack(old(ladderQueue.View()), e))
    {
      hide QueueSpec.Push, Stored, Ordered, TakesPushBack, LadderQueue.Valid;
      ghost var q := ladderQueue.View();
      Added(q, pending, e);
      var error := ladderQueue.Push(e);
      ok := error.None?;
      inOrder := inOrder && e.arrival <= DBL_MAX && !TakesPushBack(q, e);
      if ok { pending := pending + [e]; }
    }

    /** One of the pending events is handed out, an earliest one if the queue is in order. */
    method Dequeue() returns (r: Option<Entry>, ghost i: nat)
      requires Valid()
      modifies Footprint()
      ensures Valid() && inOrder == old(inOrder)
      ensures r.None? <==> old(pending) == []
      ensures r.None? ==> pending == old(pending) && Last() == old(Last())
      ensures r.Some? ==>
        && i < |old(pending)| && r.value == old(pending)[i]
        && pending == Network.Without(old(pending), i) && Last() == r.value.arrival
        && (inOrder ==> Network.Minimal(old(pending), i))
    {
      hide QueueSpec.Dequeue, Stored, Ordered, LadderQueue.Valid;
      i := Taken(ladderQueue.View(), pending);
      r := ladderQueue.Dequeue();
      if r.Some? { pending := Network.Without(pending, i); }
    }
  }

  /** What a push makes of the pending events. */
  lemma {:induction false} Added(q: Queue, p: seq<Entry>, e: Entry)
    requires multiset(p) == Stored(q) && q.thres >= 2
    ensures var (out, q1) := Push(q, e);
      && multiset(if out == Accepted then p + [e] else p) == Stored(q1) && q1.last == q.last
      && (e.arrival >= q.last ==> out == Accepted)
      && (Ordered(q) && e.arrival <= DBL_MAX && !TakesPushBack(q, e) ==> Ordered(q1))
  {
    hide QueueSpec.Push, Stored, Ordered, TakesPushBack;
    PushConserves(q, e);
    PushKeepsLast(q, e);
    if e.arrival >= q.last { PushAcceptsFuture(q, e); }
    if Ordered(q) && e.arrival <= DBL_MAX && !TakesPushBack(q, e) { PushKeepsOrder(q, e); }
  }

  lemma {:induction false} PushAcceptsFuture(q: Queue, e: Entry)
    requires q.thres >= 2 && e.arrival >= q.last
    ensures Push(q, e).0 == Accepted
  {
  }

  /** Which of the pending events a dequeue hands out. */
  lemma {:induction false} Taken(q: Queue, p: seq<Entry>) returns (i: nat)
    requires multiset(p) == Stored(q)
    ensures var (r, q1) := Dequeue(q);
      && (r.None? <==> p == []) && (Ordered(q) ==> Ordered(q1))
      && (r.None? ==> multiset(p) == Stored(q1) && q1.last == q.last)
      && (r.Some? ==>
        && i < |p| && r.value == p[i] && multiset(Network.Without(p, i)) == Stored(q1)
        && q1.last == r.value.arrival && (Ordered(q) ==> Network.Minimal(p, i)))
  {
    hide QueueSpec.Dequeue, Stored, Ordered;
    DequeueConserves(q);
    DequeueSetsLast(q);
    if Ordered(q) { DequeueKeepsOrder(q); }
    var r := Dequeue(q).0;
    i := 0;
    if r.Some? {
      assert r.value in p;
      i :| 0 <= i < |p| && p[i] == r.value;
      WithoutOne(p, i);
      if Ordered(q) { LeastIsMinimal(p, i); }
    } else {
      assert |multiset(p)| == |p|;
    }
  }

  lemma {:induction false} WithoutOne(p: seq<Entry>, i: nat)
    requires i < |p|
    ensures multiset(Network.Without(p, i)) == multiset(p) - multiset{p[i]}
  {
    assert p == p[..i] + [p[i]] + p[i + 1..];
  }

  lemma {:induction false} LeastIsMinimal(p: seq<Entry>, i: nat)
    requires i < |p| && forall y :: y in multiset(p) ==> p[i].arrival <= y.arrival
    ensures Network.Minimal(p, i)
  {
    forall j | 0 <= j < |p| ensures p[i].arrival <= p[j].arrival { assert p[j] in multiset(p); }
  }
}
