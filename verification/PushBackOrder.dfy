/** Time order holds from a queue in order, whatever follows, if and only if the push does not
    take the pushBack branch: after the branch some run of further operations goes wrong. */
module PushBackOrder {
  import opened Entries
  import opened EventLists
  import opened LadderSpec
  import opened QueueSpec
  import opened QueueTheorems
  import opened QueueOrder

  // ---- runs one after the other --------------------------------------------------------

  lemma {:induction false} OutputsAppend(q: Queue, a: seq<Op>, b: seq<Op>)
    requires q.thres >= 2
    ensures Outputs(q, a + b) == Outputs(q, a) + Outputs(After(q, a), b)
  {
    hide Step;
    if b == [] {
      assert a + b == a && Outputs(q, a) + [] == Outputs(q, a);
    } else {
      var n := |b| - 1;
      OutputsAppend(q, a, b[..n]);
      AfterAppend(q, a, b[..n]);
      assert (a + b)[..|a| + n] == a + b[..n];
    }
  }

  lemma {:induction false} NoPushBackAppend(q: Queue, a: seq<Op>, b: seq<Op>)
    requires q.thres >= 2
    ensures NoPushBack(q, a + b) <==> NoPushBack(q, a) && NoPushBack(After(q, a), b)
  {
    hide TakesPushBack, Step;
    if b == [] {
      assert a + b == a;
    } else {
      var n := |b| - 1;
      NoPushBackAppend(q, a, b[..n]);
      AfterAppend(q, a, b[..n]);
      assert (a + b)[..|a| + n] == a + b[..n];
    }
  }

  lemma {:induction false} RefinesAppend(ref: Reference, a: seq<Op>, oa: seq<Out>, b: seq<Op>, ob: seq<Out>)
    requires |a| == |oa| && |b| == |ob|
    ensures ReferenceAfter(ref, a + b, oa + ob) == ReferenceAfter(ReferenceAfter(ref, a, oa), b, ob)
    ensures Refines(ref, a + b, oa + ob) <==> Refines(ref, a, oa) && Refines(ReferenceAfter(ref, a, oa), b, ob)
  {
    hide Allows, Next;
    if b == [] {
      assert a + b == a && oa + ob == oa;
    } else {
      var n := |b| - 1;
      RefinesAppend(ref, a, oa, b[..n], ob[..n]);
      assert (a + b)[..|a| + n] == a + b[..n] && (oa + ob)[..|a| + n] == oa + ob[..n];
    }
  }

  lemma {:induction false} StepTracked(q: Queue, op: Op)
    requires q.thres >= 2
    ensures var (out, q') := Step(q, op); Next(Abstract(q), op, out) == Abstract(q')
  {
    hide Push, Dequeue, Stored;
    match op {
      case PushOp(e) =>
        PushConserves(q, e);
        PushKeepsLast(q, e);
      case DequeueOp =>
        DequeueConserves(q);
        DequeueSetsLast(q);
    }
  }

  /** In order or not, the stored events and the last time are those the reference tracks. */
  lemma {:induction false} Tracked(q: Queue, ops: seq<Op>)
    requires q.thres >= 2
    ensures ReferenceAfter(Abstract(q), ops, Outputs(q, ops)) == Abstract(After(q, ops))
  {
    hide Step, Abstract, Next;
    if ops == [] {
    } else {
      var n := |ops| - 1;
      Tracked(q, ops[..n]);
      assert Outputs(q, ops)[..n] == Outputs(q, ops[..n]);
      StepTracked(After(q, ops[..n]), ops[n]);
    }
  }

  // ---- runs that go wrong --------------------------------------------------------------

  /** The queue's answer is not one of the sorted multiset. */
  ghost predicate Wrong(q: Queue, op: Op)
    requires q.thres >= 2
  {
    !Allows(Abstract(q), op, Step(q, op).0)
  }

  /** A run of finite times, without a further pushBack, that ends in a wrong answer. */
  ghost predicate Breaks(q: Queue, ops: seq<Op>)
    requires q.thres >= 2
  {
    && ops != [] && Finite(ops) && NoPushBack(q, ops)
    && Wrong(After(q, ops[..|ops| - 1]), ops[|ops| - 1])
  }

  ghost predicate CanBreak(q: Queue)
    requires q.thres >= 2
  {
    exists ops :: Breaks(q, ops)
  }

  /** An operation that such a run may begin with. */
  predicate Harmless(q: Queue, op: Op) {
    op.PushOp? ==> op.e.arrival <= DBL_MAX && !TakesPushBack(q, op.e)
  }

  lemma {:induction false} BreaksNow(q: Queue, op: Op)
    requires q.thres >= 2 && Harmless(q, op) && Wrong(q, op)
    ensures CanBreak(q)
  {
    hide TakesPushBack, Wrong, Step;
    var ops := [op];
    assert ops[..0] == [] && After(q, ops[..0]) == q;
    assert NoPushBack(q, ops[..0]);
    assert Breaks(q, ops);
  }

  lemma {:induction false} FirstStep(q: Queue, op: Op)
    requires q.thres >= 2 && Harmless(q, op)
    ensures After(q, [op]) == Step(q, op).1 && NoPushBack(q, [op]) && Finite([op])
  {
    hide TakesPushBack, Step;
    assert [op][..0] == [] && After(q, []) == q;
    assert NoPushBack(q, []);
  }

  lemma {:induction false} BreaksLater(q: Queue, op: Op)
    requires q.thres >= 2 && Harmless(q, op) && Step(q, op).1.thres >= 2 && CanBreak(Step(q, op).1)
    ensures CanBreak(q)
  {
    hide TakesPushBack, Wrong, Step, NoPushBack, After, Harmless;
    FirstStep(q, op);
    var more :| Breaks(Step(q, op).1, more);
    var ops, n := [op] + more, |more| - 1;
    NoPushBackAppend(q, [op], more);
    AfterAppend(q, [op], more[..n]);
    assert ops[..|ops| - 1] == [op] + more[..n];
    assert Finite(ops);
    assert Breaks(q, ops);
  }

  /** A dequeue is wrong if it returns an event although an earlier one is stored. */
  lemma {:induction false} LateDequeue(q: Queue, x: Entry, y: Entry)
    requires q.thres >= 2 && Dequeue(q).0 == Some(x) && y in Stored(q) && y.arrival < x.arrival
    ensures CanBreak(q)
  {
    BreaksNow(q, DequeueOp);
  }

  // ---- what the pushBack branch leaves ------------------------------------------------

  /** The queue after pushBack: an empty Bottom and two rungs, the lower one holding `list`. */
  ghost predicate PushedBack(q: Queue, r0: Rung, r1: Rung) {
    && q.thres >= 2 && q.ladder == [r0, r1] && q.bottom == [] && r1.events != []
    && r1.cur <= r0.cur && q.last <= r0.cur
    && AllWithin(r1.events, q.last, r0.cur)
    && AllWithin(r0.events, r0.cur, q.topStart)
    && r0.cur <= q.topStart && AllWithin(q.top, q.topStart, DBL_MAX)
  }

  lemma {:induction false} TwoRungs(rs: Rungs)
    requires |rs| == 2
    ensures Contents(rs) == multiset(rs[0].events) + multiset(rs[1].events)
    ensures Size(rs) == |rs[0].events| + |rs[1].events|
  {
    assert rs[..1] == [rs[0]];
    SingleRung([rs[0]]);
  }

  lemma {:induction false} PushBackState(q: Queue, e: Entry)
    requires Ordered(q) && TakesPushBack(q, e) && e.arrival <= DBL_MAX
    ensures var q1, list := Push(q, e).1, InsertByTime(q.bottom, e);
      && q1.ladder == [q.ladder[0], Below(q.ladder[0], q.thres, list)]
      && PushedBack(q1, q.ladder[0], q1.ladder[1])
      && list != [] && SortedByTime(list)
  {
    var list := InsertByTime(q.bottom, e);
    SingleRung(q.ladder);
    InsertByTimeSorted(q.bottom, e);
    InsertByTimeMultiset(q.bottom, e);
    forall x | x in list ensures q.last <= x.arrival <= q.ladder[0].cur { InsertByTimeMember(q.bottom, e, x); }
    assert q.ladder[0].events[0] in q.ladder[0].events;
  }

  // ---- after the branch ----------------------------------------------------------------

  /** Two rungs above Bottom: `r0` holds events, `r1` lies below it, one bucket of `r0` wide. */
  ghost predicate TwoLevels(q: Queue, r0: Rung, r1: Rung) {
    && q.thres > 2 && q.ladder == [r0, r1] && r0.events != []
    && 0.0 < r1.width < r0.width && r0.cur <= q.topStart && r0.cur <= DBL_MAX
  }

  lemma {:induction false} TwoLevelsHoldEvents(q: Queue, r0: Rung, r1: Rung)
    requires TwoLevels(q, r0, r1)
    ensures Size(q.ladder) > 0 && Lowest(q.ladder) == r1
    ensures Contents(q.ladder) == multiset(r0.events) + multiset(r1.events)
  {
    TwoRungs(q.ladder);
  }

  /** A time that the lower rung accepts and the upper does not, away from Bottom's range, is
      filed on the lower rung. */
  lemma {:induction false} FiledBelow(q: Queue, r0: Rung, r1: Rung, y: Entry)
    requires TwoLevels(q, r0, r1) && r1.cur <= y.arrival < r0.cur && !WithinBottom(q, y)
    ensures Push(q, y) == (Accepted, q.(ladder := [r0, r1.(events := r1.events + [y])]))
    ensures Harmless(q, PushOp(y))
  {
    TwoLevelsHoldEvents(q, r0, r1);
    assert FindRung(q.ladder, y.arrival, 0) == 1;
    assert Put(q.ladder, 1, [y]) == [r0, r1.(events := r1.events + [y])];
  }

  /** With Bottom's front beyond the lower rung's reach, an event just before it is handed out
      after it. */
  lemma {:induction false} OvertakenByBottom(q: Queue, r0: Rung, r1: Rung, bound: real)
    requires TwoLevels(q, r0, r1) && q.bottom != [] && r1.cur <= bound && q.bottom[0].arrival <= r0.cur
    requires bound < q.bottom[0].arrival
    ensures CanBreak(q)
  {
    var b := q.bottom[0];
    var y := At((bound + b.arrival) / 2.0, 0);
    FiledBelow(q, r0, r1, y);
    var r1' := r1.(events := r1.events + [y]);
    var q' := q.(ladder := [r0, r1']);
    TwoLevelsHoldEvents(q', r0, r1');
    assert y in r1'.events;
    LateDequeue(q', b, y);
    BreaksLater(q, PushOp(y));
  }

  /** If Bottom holds an event beyond `bound`, it comes to the front sooner or later. */
  lemma {:induction false} FrontPassesBound(q: Queue, r0: Rung, r1: Rung, bound: real, i: nat)
    requires TwoLevels(q, r0, r1) && r1.cur <= bound && i < |q.bottom| && bound < q.bottom[i].arrival
    requires forall j :: 0 <= j < |q.bottom| ==> q.bottom[j].arrival <= r0.cur
    ensures CanBreak(q)
    decreases i
  {
    if bound < q.bottom[0].arrival {
      OvertakenByBottom(q, r0, r1, bound);
    } else {
      var q' := q.(bottom := q.bottom[1..], last := q.bottom[0].arrival);
      assert Dequeue(q).1 == q';
      assert q'.bottom[i - 1] == q.bottom[i];
      FrontPassesBound(q', r0, r1, bound, i - 1);
      BreaksLater(q, DequeueOp);
    }
  }

  /** The lower rung's events go to Bottom and leave the rung behind, one bucket further. */
  lemma {:induction false} LowerRungDelisted(q: Queue, r0: Rung, r1: Rung)
    requires TwoLevels(q, r0, r1) && q.bottom == [] && |r1.events| > q.thres
    ensures var b := Sort(r1.events);
      && b != [] && |b| == |r1.events| && SortedByLess(b)
      && (forall x :: x in b <==> x in r1.events)
      && Dequeue(q).1 == q.(ladder := [r0, Passed(r1)], bottom := b[1..], last := b[0].arrival)
  {
    TwoLevelsHoldEvents(q, r0, r1);
    SortCorrect(r1.events);
    MembersOf(Sort(r1.events), r1.events);
    assert |multiset(Sort(r1.events))| == |multiset(r1.events)|;
    assert q.ladder[1 := Passed(r1)] == [r0, Passed(r1)];
    assert Delist(q.ladder, q.thres) == (r1.events, [r0, Passed(r1)]);
  }

  lemma {:induction false} FrontBefore(b: seq<Entry>, x: Entry)
    requires SortedByLess(b) && x in b
    ensures b[0].arrival <= x.arrival
  {
    var k :| 0 <= k < |b| && b[k] == x;
  }

  /** Once delisted the lower rung still accepts times before those in Bottom. */
  lemma {:induction false} LowerRungLingers(q: Queue, r0: Rung, r1: Rung, x: Entry, y: Entry)
    requires TwoLevels(q, r0, r1) && q.bottom == [] && |r1.events| > q.thres
    requires forall z :: z in r1.events ==> z.arrival <= r0.cur
    requires x in r1.events && y in r1.events && x.arrival < y.arrival && r1.cur + r1.width < y.arrival
    ensures CanBreak(q)
  {
    hide Sort, SortedByLess, CanBreak, Dequeue;
    LowerRungDelisted(q, r0, r1);
    var b := Sort(r1.events);
    var q' := q.(ladder := [r0, Passed(r1)], bottom := b[1..], last := b[0].arrival);
    var i :| 0 <= i < |b| && b[i] == y;
    FrontBefore(b, x);
    var bound := if b[0].arrival > Passed(r1).cur then b[0].arrival else Passed(r1).cur;
    assert q'.bottom[i - 1] == y;
    forall j | 0 <= j < |q'.bottom| ensures q'.bottom[j].arrival <= r0.cur {
      assert b[j + 1] in b;
    }
    FrontPassesBound(q', r0, Passed(r1), bound, i - 1);
    BreaksLater(q, DequeueOp);
  }

  /** What Ladder::pushBack leaves: Bottom empty, more than the threshold on the lower rung,
      which starts one bucket width of the upper one below it. */
  ghost predicate JustPushedBack(q: Queue, r0: Rung, r1: Rung) {
    && PushedBack(q, r0, r1) && TwoLevels(q, r0, r1)
    && r1.cur == r0.cur - r0.width && |r1.events| > q.thres
  }

  /** A rung that starts above its own earliest event lets a later one overtake it. */
  lemma {:induction false} BreaksStartingLate(q: Queue, r0: Rung, r1: Rung, b: Entry)
    requires JustPushedBack(q, r0, r1) && b in r1.events && b.arrival < r1.cur
    ensures CanBreak(q)
  {
    var a := At((b.arrival + r1.cur) / 2.0, 0);
    var q' := q.(bottom := [a]);
    TwoLevelsHoldEvents(q, r0, r1);
    assert OfferedToBottom(q, a);
    assert InsertByTime([], a) == [a];
    assert Push(q, a) == (Accepted, q');
    assert Dequeue(q').0 == Some(a);
    assert b in Stored(q');
    LateDequeue(q', a, b);
    BreaksLater(q, PushOp(a));
  }

  /** One that starts before the last dequeued time accepts an event from the past. */
  lemma {:induction false} BreaksStartingEarly(q: Queue, r0: Rung, r1: Rung)
    requires JustPushedBack(q, r0, r1) && r1.cur < q.last
    ensures CanBreak(q)
  {
    var y := At(r1.cur, 0);
    assert !WithinBottom(q, y);
    FiledBelow(q, r0, r1, y);
    BreaksNow(q, PushOp(y));
  }

  /** A time strictly between two others that is not a third. */
  lemma {:induction false} TimeBetween(lo: real, hi: real, not: real) returns (t: real)
    requires lo < hi
    ensures lo < t < hi && t != not
  {
    t := (lo + hi) / 2.0;
    if t == not { t := (lo + t) / 2.0; }
  }

  /** Otherwise one more event spreads the rung's times, and the emptied rung lingers. */
  lemma {:induction false} BreaksByLingering(q: Queue, r0: Rung, r1: Rung)
    requires JustPushedBack(q, r0, r1) && q.last <= r1.cur
    ensures CanBreak(q)
  {
    var e := r1.events[0];
    assert e in r1.events;
    var t := TimeBetween(r1.cur + r1.width, r0.cur, e.arrival);
    var x := At(t, 0);
    FiledBelow(q, r0, r1, x);
    var r1' := r1.(events := r1.events + [x]);
    var q' := q.(ladder := [r0, r1']);
    assert x in r1'.events && e in r1'.events;
    if t < e.arrival {
      LowerRungLingers(q', r0, r1', x, e);
    } else {
      LowerRungLingers(q', r0, r1', e, x);
    }
    BreaksLater(q, PushOp(x));
  }

  /** Every stored time is a finite double. */
  ghost predicate AllFinite(q: Queue) {
    forall x :: x in Stored(q) ==> x.arrival <= DBL_MAX
  }

  lemma {:induction false} NarrowerBelow(r: Rung, thres: nat)
    requires thres > 2 && r.width > 0.0
    ensures 0.0 < r.width / (thres - 1) as real < r.width
  {
    PartOf(r.width, (thres - 1) as real);
  }

  lemma {:induction false} PartOf(a: real, n: real)
    requires a > 0.0 && n > 1.0
    ensures 0.0 < a / n < a
  {
    var x := a / n;
    assert x * n == a;
    assert x > 0.0 by { if x <= 0.0 { NotPositive(x, n); } }
    assert x * n == x + x * (n - 1.0);
    Positive(x, n - 1.0);
  }

  lemma {:induction false} NotPositive(x: real, n: real)
    requires x <= 0.0 && n > 0.0
    ensures x * n <= 0.0
  {
  }

  lemma {:induction false} Positive(x: real, y: real)
    requires x > 0.0 && y > 0.0
    ensures x * y > 0.0
  {
  }

  lemma {:induction false} StateAfterPushBack(q: Queue, e: Entry)
    requires Ordered(q) && q.thres > 2 && TakesPushBack(q, e) && e.arrival <= DBL_MAX && AllFinite(q)
    ensures var q1 := Push(q, e).1;
      |q1.ladder| == 2 && q1.thres == q.thres && JustPushedBack(q1, q1.ladder[0], q1.ladder[1])
  {
    PushBackState(q, e);
    SingleRung(q.ladder);
    InsertByTimeMultiset(q.bottom, e);
    NarrowerBelow(q.ladder[0], q.thres);
    var x := q.ladder[0].events[0];
    assert x in Stored(q) && q.ladder[0].cur <= x.arrival;
  }

  /** Whatever the state, after the pushBack branch order can be broken. */
  lemma {:induction false} PushBackCanBreak(q: Queue, e: Entry)
    requires Ordered(q) && q.thres > 2 && TakesPushBack(q, e) && e.arrival <= DBL_MAX && AllFinite(q)
    ensures Push(q, e).1.thres == q.thres && CanBreak(Push(q, e).1)
  {
    hide JustPushedBack, Push, Ordered, TakesPushBack, CanBreak;
    StateAfterPushBack(q, e);
    var q1 := Push(q, e).1;
    var r0, r1 := q1.ladder[0], q1.ladder[1];
    if b :| b in r1.events && b.arrival < r1.cur {
      BreaksStartingLate(q1, r0, r1, b);
    } else if r1.cur < q1.last {
      BreaksStartingEarly(q1, r0, r1);
    } else {
      BreaksByLingering(q1, r0, r1);
    }
  }

  // ---- exactly when order survives -----------------------------------------------------

  /** Every run without a further pushBack is answered like the sorted multiset answers it. */
  ghost predicate AlwaysInOrder(q: Queue)
    requires q.thres >= 2
  {
    forall more :: Finite(more) && NoPushBack(q, more) ==> Refines(Abstract(q), more, Outputs(q, more))
  }

  lemma {:induction false} CanBreakIsNotAlways(q: Queue)
    requires q.thres >= 2 && CanBreak(q)
    ensures !AlwaysInOrder(q)
  {
    hide Wrong, Step, Allows;
    var ops :| Breaks(q, ops);
    Tracked(q, ops[..|ops| - 1]);
    assert Outputs(q, ops)[..|ops| - 1] == Outputs(q, ops[..|ops| - 1]);
    WrongIsNotAllowed(After(q, ops[..|ops| - 1]), ops[|ops| - 1]);
    assert !Refines(Abstract(q), ops, Outputs(q, ops));
  }

  lemma {:induction false} WrongIsNotAllowed(q: Queue, op: Op)
    requires q.thres >= 2 && Wrong(q, op)
    ensures !Allows(Abstract(q), op, Step(q, op).0)
  {
  }

  /** From a queue in order: whatever follows a push is answered in order if and only if the push
      does not take the pushBack branch. */
  lemma {:induction false} OrderSurvivesIff(q: Queue, e: Entry)
    requires Ordered(q) && q.thres > 2 && e.arrival <= DBL_MAX && AllFinite(q)
    ensures Push(q, e).1.thres == q.thres
    ensures AlwaysInOrder(Push(q, e).1) <==> !TakesPushBack(q, e)
  {
    hide Ordered, Push, TakesPushBack;
    if TakesPushBack(q, e) {
      PushBackCanBreak(q, e);
      CanBreakIsNotAlways(Push(q, e).1);
    } else {
      PushKeepsOrder(q, e);
      PushKeepsThres(q, e);
      var q1 := Push(q, e).1;
      forall more | Finite(more) && NoPushBack(q1, more)
        ensures Refines(Abstract(q1), more, Outputs(q1, more))
      {
        OrderedRefines(q1, more);
      }
    }
  }

  lemma {:induction false} FiniteEvents(q: Queue, ops: seq<Op>)
    requires q.thres >= 2 && Finite(ops)
    ensures forall x :: x in AcceptedIn(ops, Outputs(q, ops)) ==> x.arrival <= DBL_MAX
  {
    hide Step;
    if ops == [] {
    } else {
      var n := |ops| - 1;
      FiniteEvents(q, ops[..n]);
      assert Outputs(q, ops)[..n] == Outputs(q, ops[..n]);
    }
  }

  lemma {:induction false} StoredIsFinite(thres: nat, ops: seq<Op>)
    requires thres >= 2 && Finite(ops)
    ensures AllFinite(After(Initial(thres), ops))
  {
    hide Stored;
    Conservation(thres, ops);
    FiniteEvents(Initial(thres), ops);
    var q := After(Initial(thres), ops);
    forall x | x in Stored(q) ensures x.arrival <= DBL_MAX {
      assert x in AcceptedIn(ops, Outputs(Initial(thres), ops));
    }
  }

  /** For whole runs from a new queue: after a run that has avoided the branch, a further push can
      be followed by any operations in order if and only if it avoids the branch as well. */
  lemma {:induction false} RunsStayInOrderIff(thres: nat, ops: seq<Op>, e: Entry)
    requires thres > 2 && Finite(ops) && NoPushBack(Initial(thres), ops) && e.arrival <= DBL_MAX
    ensures var q, run := Initial(thres), ops + [PushOp(e)];
      (forall more: seq<Op> :: Finite(more) && NoPushBack(After(q, run), more) ==>
        Refines(EMPTY_REFERENCE, run + more, Outputs(q, run + more)))
      <==> !TakesPushBack(After(q, ops), e)
  {
    hide Ordered, Push, TakesPushBack, AllFinite, Step, Allows;
    var q, run := Initial(thres), ops + [PushOp(e)];
    var p := After(q, ops);
    RefinesSortedMultiset(thres, ops);
    StoredIsFinite(thres, ops);
    AfterSnoc(q, ops, PushOp(e));
    PushStep(p, e);
    var p1 := After(q, run);
    OrderSurvivesIff(p, e);
    InitiallyOrdered(thres);
    Tracked(q, run);
    forall more: seq<Op>
      ensures Refines(EMPTY_REFERENCE, run + more, Outputs(q, run + more)) <==>
        Refines(EMPTY_REFERENCE, run, Outputs(q, run)) && Refines(Abstract(p1), more, Outputs(p1, more))
    {
      OutputsAppend(q, run, more);
      RefinesAppend(EMPTY_REFERENCE, run, Outputs(q, run), more, Outputs(p1, more));
    }
    if !TakesPushBack(p, e) {
      PushRefines(p, e);
      assert run[..|ops|] == ops && Outputs(q, run)[..|ops|] == Outputs(q, ops);
      assert Refines(EMPTY_REFERENCE, run, Outputs(q, run));
    }
  }

  lemma {:induction false} PushStep(q: Queue, e: Entry)
    requires q.thres >= 2
    ensures Step(q, PushOp(e)).1 == Push(q, e).1
  {
  }
}
