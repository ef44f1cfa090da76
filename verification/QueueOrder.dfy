/** Dequeue times never decrease, and the run that shows where time order ends. */
module QueueOrder {
  import opened Entries
  import opened EventLists
  import opened LadderSpec
  import opened QueueSpec
  import opened QueueTheorems

  // ---- times handed out never decrease -----------------------------------------------

  ghost predicate BoundedBy(s: seq<Entry>, t: real) {
    forall x :: x in s ==> x.arrival <= t
  }

  /** What has been handed out is in order and lies before what is stored. */
  ghost predicate InOrderBefore(d: seq<Entry>, ref: Reference) {
    && SortedByTime(d) && BoundedBy(d, ref.last)
    && (d == [] || forall y :: y in ref.stored ==> ref.last <= y.arrival)
  }

  lemma {:induction false} AllowedStaysInOrder(d: seq<Entry>, ref: Reference, op: Op, out: Out)
    requires InOrderBefore(d, ref) && Allows(ref, op, out)
    ensures var next := Next(ref, op, out);
      InOrderBefore(if out.DequeueOut? && out.entry.Some? then d + [out.entry.value] else d, next)
  {
    if out.DequeueOut? && out.entry.Some? {
      var x := out.entry.value;
      assert forall y :: y in d + [x] <==> y in d || y == x;
    }
  }

  /** Whatever answers like the sorted multiset hands out non-decreasing times. */
  lemma {:induction false} ReferenceMonotone(ops: seq<Op>, outs: seq<Out>)
    requires |ops| == |outs| && Refines(EMPTY_REFERENCE, ops, outs)
    ensures InOrderBefore(Dequeued(outs), ReferenceAfter(EMPTY_REFERENCE, ops, outs))
    ensures SortedByTime(Dequeued(outs))
  {
    if ops == [] {
      assert InOrderBefore([], EMPTY_REFERENCE);
    } else {
      hide Allows, Next, SortedByTime, BoundedBy;
      var n := |ops| - 1;
      ReferenceMonotone(ops[..n], outs[..n]);
      AllowedStaysInOrder(Dequeued(outs[..n]), ReferenceAfter(EMPTY_REFERENCE, ops[..n], outs[..n]), ops[n], outs[n]);
      assert Dequeued(outs[..n]) + [] == Dequeued(outs[..n]);
    }
  }

  /** Dequeue times never decrease in a run that avoids the pushBack branch. */
  lemma {:induction false} DequeueTimesMonotone(thres: nat, ops: seq<Op>)
    requires thres >= 2 && Finite(ops)
    requires NoPushBack(Initial(thres), ops)
    ensures SortedByTime(Dequeued(Outputs(Initial(thres), ops)))
  {
    RefinesSortedMultiset(thres, ops);
    ReferenceMonotone(ops, Outputs(Initial(thres), ops));
  }

  // ---- runs, one operation longer ------------------------------------------------------

  lemma {:induction false} AfterSnoc(q: Queue, ops: seq<Op>, op: Op)
    requires q.thres >= 2
    ensures After(q, ops + [op]) == Step(After(q, ops), op).1
    ensures Outputs(q, ops + [op]) == Outputs(q, ops) + [Step(After(q, ops), op).0]
  {
    assert (ops + [op])[..|ops|] == ops;
  }

  lemma {:induction false} DequeuedSnoc(outs: seq<Out>, out: Out)
    ensures Dequeued(outs + [out]) ==
      if out.DequeueOut? && out.entry.Some? then Dequeued(outs) + [out.entry.value] else Dequeued(outs)
  {
    assert (outs + [out])[..|outs|] == outs;
    assert Dequeued(outs) + [] == Dequeued(outs);
  }

  // ---- the pushBack branch breaks time order -----------------------------------------

  function At(t: real, gid: nat): Entry {
    Entry(gid, gid, 0.0, t, t, 0, EXTERNAL_EVENT, LastArrival, [], [])
  }

  /** `k` events at time `t`, with gids from `g` on. */
  function Burst(t: real, k: nat, g: nat): seq<Entry> {
    seq(k, i requires 0 <= i => At(t, g + i))
  }

  function Pushes(s: seq<Entry>): seq<Op> {
    seq(|s|, i requires 0 <= i < |s| => PushOp(s[i]))
  }

  lemma {:induction false} AfterAppend(q: Queue, a: seq<Op>, b: seq<Op>)
    requires q.thres >= 2
    ensures After(q, a + b) == After(After(q, a), b)
  {
    hide Step;
    if b == [] {
      assert a + b == a;
    } else {
      var n := |b| - 1;
      AfterAppend(q, a, b[..n]);
      assert (a + b)[..|a| + n] == a + b[..n];
    }
  }

  /** An event that Bottom is offered and that is not early goes to Bottom's back. */
  lemma {:induction false} PushToBack(q: Queue, e: Entry)
    requires q.thres >= 2 && |q.bottom| < q.thres
    requires q.last <= e.arrival < q.topStart && OfferedToBottom(q, e)
    requires q.bottom != [] ==> q.bottom[|q.bottom| - 1].arrival <= e.arrival
    ensures Push(q, e) == (Accepted, q.(bottom := q.bottom + [e]))
  {
    assert InsertByTime(q.bottom, e) == q.bottom + [e];
  }

  lemma {:induction false} BurstSnoc(t: real, k: nat, g: nat)
    requires k > 0
    ensures Burst(t, k, g) == Burst(t, k - 1, g) + [At(t, g + k - 1)]
    ensures Pushes(Burst(t, k, g)) == Pushes(Burst(t, k - 1, g)) + [PushOp(At(t, g + k - 1))]
  {
  }

  ghost predicate AllAt(s: seq<Entry>, t: real) {
    forall x :: x in s ==> x.arrival == t
  }

  /** Bottom holds only events at time `t` and takes one more of them. */
  lemma {:induction false} PushSameTime(q: Queue, e: Entry)
    requires q.thres >= 2 && |q.bottom| < q.thres
    requires q.last <= e.arrival < q.topStart && AllAt(q.bottom, e.arrival)
    requires q.bottom == [] ==> e.arrival < Lowest(q.ladder).cur
    ensures Step(q, PushOp(e)) == (PushOut(Accepted), q.(bottom := q.bottom + [e]))
    ensures AllAt(q.bottom + [e], e.arrival)
  {
    if q.bottom != [] {
      assert q.bottom[0] in q.bottom && q.bottom[|q.bottom| - 1] in q.bottom;
    }
    PushToBack(q, e);
  }

  /** Events at one time pile up in Bottom as long as the threshold allows. */
  lemma {:induction false} BurstFillsBottom(q: Queue, t: real, k: nat, g: nat)
    requires q.thres >= 2 && |q.bottom| + k <= q.thres
    requires q.last <= t < q.topStart && AllAt(q.bottom, t)
    requires q.bottom == [] ==> t < Lowest(q.ladder).cur
    ensures After(q, Pushes(Burst(t, k, g))) == q.(bottom := q.bottom + Burst(t, k, g))
    ensures AllAt(q.bottom + Burst(t, k, g), t)
  {
    var b := Burst(t, k, g);
    if k == 0 {
      assert q.bottom + b == q.bottom;
    } else {
      var e, front := At(t, g + k - 1), Burst(t, k - 1, g);
      BurstFillsBottom(q, t, k - 1, g);
      BurstSnoc(t, k, g);
      AfterSnoc(q, Pushes(front), PushOp(e));
      var q1 := q.(bottom := q.bottom + front);
      assert |q1.bottom| < q1.thres;
      PushSameTime(q1, e);
      assert q.bottom + b == q1.bottom + [e];
    }
  }

  /** The three bursts of the run: two events and a dequeue; a burst at time 20 that moves
      Bottom into an empty ladder; a burst at time 12 that is pushed back onto it; and one
      event at time 15. */
  function BreakingRun(thres: nat): seq<Op> {
    [PushOp(At(10.0, 0)), PushOp(At(20.0, 1)), DequeueOp]
      + Pushes(Burst(20.0, thres, 2)) + Pushes(Burst(12.0, thres + 1, thres + 2))
      + [PushOp(At(15.0, 2 * thres + 3)), DequeueOp]
  }

  lemma {:induction false} ThreeSteps(q: Queue, x: Op, y: Op, z: Op)
    requires q.thres >= 2
    ensures After(q, [x, y, z]) == Step(Step(Step(q, x).1, y).1, z).1
  {
    assert After(q, []) == q;
    hide Step, After, Outputs;
    assert [] + [x] == [x] && [x] + [y] == [x, y] && [x, y] + [z] == [x, y, z];
    AfterSnoc(q, [], x);
    AfterSnoc(q, [x], y);
    AfterSnoc(q, [x, y], z);
  }

  lemma {:induction false} BreakingStart(thres: nat)
    requires thres >= 2
    ensures After(Initial(thres), [PushOp(At(10.0, 0)), PushOp(At(20.0, 1)), DequeueOp])
      == Queue(thres, [], 25.0, [Rung(15.0, 5.0, [])], [At(20.0, 1)], 10.0)
  {
    var q, a, b := Initial(thres), At(10.0, 0), At(20.0, 1);
    ThreeSteps(q, PushOp(a), PushOp(b), DequeueOp);
    var q2 := q.(top := [a, b]);
    assert Step(Step(q, PushOp(a)).1, PushOp(b)).1 == q2;
    FirstEpoch(q2, a, b);
  }

  lemma {:induction false} FirstEpoch(q2: Queue, a: Entry, b: Entry)
    requires q2 == Initial(q2.thres).(top := [a, b]) && q2.thres >= 2
    requires a == At(10.0, 0) && b == At(20.0, 1)
    ensures Dequeue(q2) == (Some(a), Queue(q2.thres, [], 25.0, [Rung(15.0, 5.0, [])], [b], 10.0))
  {
    SingleRung(q2.ladder);
    TopOfTwo(a, b);
    var q3 := TopToLadder(q2);
    assert q3.ladder == [Rung(10.0, 5.0, [a, b])];
    SortTwo(a, b);
    assert q3.ladder[0 := Passed(q3.ladder[0])] == [Rung(15.0, 5.0, [])];
    assert Delist(q3.ladder, q2.thres) == ([a, b], [Rung(15.0, 5.0, [])]);
    assert [a, b][1..] == [b];
  }

  lemma {:induction false} TopOfTwo(a: Entry, b: Entry)
    requires 0.0 <= a.arrival < b.arrival <= DBL_MAX
    ensures MaxTS([a, b]) == b.arrival && MinTS([a, b]) == a.arrival
  {
    assert [] + [a] == [a] && [a] + [b] == [a, b];
    TopSnoc([], a);
    TopSnoc([a], b);
  }

  lemma {:induction false} TopSnoc(s: seq<Entry>, e: Entry)
    ensures MaxTS(s + [e]) == if e.arrival > MaxTS(s) then e.arrival else MaxTS(s)
    ensures MinTS(s + [e]) == if e.arrival < MinTS(s) then e.arrival else MinTS(s)
    ensures MaxTS([]) == 0.0 && MinTS([]) == DBL_MAX
  {
    assert (s + [e])[..|s|] == s;
  }

  lemma {:induction false} SortTwo(a: Entry, b: Entry)
    requires Less(a, b)
    ensures Sort([a, b]) == [a, b]
  {
    assert [a, b][..1] == [a] && [a][..0] == [];
    assert Sort([a]) == [a];
  }

  lemma {:induction false} PushSameTimeOver(q: Queue, e: Entry)
    requires q.thres >= 2 && |q.bottom| == q.thres
    requires q.last <= e.arrival < q.topStart && AllAt(q.bottom, e.arrival)
    ensures Step(q, PushOp(e)) == (PushOut(Accepted), Relieve(q.(bottom := q.bottom + [e])))
    ensures AllAt(q.bottom + [e], e.arrival)
  {
    assert q.bottom[0] in q.bottom && q.bottom[|q.bottom| - 1] in q.bottom;
    assert WithinBottom(q, e);
    assert InsertByTime(q.bottom, e) == q.bottom + [e];
  }

  /** A burst one larger than Bottom's room goes on: the last event makes Bottom overflow. */
  lemma {:induction false} BurstOverflows(q: Queue, t: real, k: nat, g: nat, full: Queue)
    requires q.thres >= 2 && |q.bottom| + k == q.thres + 1 && k > 0
    requires q.last <= t < q.topStart && AllAt(q.bottom, t)
    requires q.bottom == [] ==> t < Lowest(q.ladder).cur
    requires full == q.(bottom := q.bottom + Burst(t, k, g))
    ensures After(q, Pushes(Burst(t, k, g))) == Relieve(full)
    ensures AllAt(full.bottom, t)
  {
    var e, front := At(t, g + k - 1), Burst(t, k - 1, g);
    var q1 := q.(bottom := q.bottom + front);
    BurstFillsBottom(q, t, k - 1, g);
    BurstSnoc(t, k, g);
    AfterSnoc(q, Pushes(front), PushOp(e));
    assert full == q1.(bottom := q1.bottom + [e]) by {
      assert q.bottom + Burst(t, k, g) == q1.bottom + [e];
    }
    PushSameTimeOver(q1, e);
  }

  /** The second burst moves Bottom into the empty ladder. */
  lemma {:induction false} BreakingMiddle(q: Queue, l: seq<Entry>)
    requires q.thres >= 2 && q == Queue(q.thres, [], 25.0, [Rung(15.0, 5.0, [])], [At(20.0, 1)], 10.0)
    requires l == [At(20.0, 1)] + Burst(20.0, q.thres, 2)
    ensures After(q, Pushes(Burst(20.0, q.thres, 2))) == Queue(q.thres, [], 25.0, [Rung(20.0, 1.0, l)], [], 10.0)
  {
    SingleRung(q.ladder);
    BurstOverflows(q, 20.0, q.thres, 2, q.(bottom := l));
    assert l[0] in l && l[|l| - 1] in l;
  }

  /** The third is pushed back: the new rung starts at 19, though it holds events at 12. */
  lemma {:induction false} BreakingEnd(q: Queue, l: seq<Entry>, l2: seq<Entry>)
    requires q.thres >= 2 && l != [] && q == Queue(q.thres, [], 25.0, [Rung(20.0, 1.0, l)], [], 10.0)
    requires l2 == Burst(12.0, q.thres + 1, q.thres + 2)
    ensures After(q, Pushes(l2)) == Queue(q.thres, [], 25.0, PushBack(q.ladder, q.thres, l2), [], 10.0)
  {
    SingleRung(q.ladder);
    assert [] + l2 == l2;
    BurstOverflows(q, 12.0, q.thres + 1, q.thres + 2, q.(bottom := l2));
  }

  /** So an event at 15 goes to Bottom and is handed out first. */
  lemma {:induction false} LateEventFirst(q: Queue, rs: Rungs, l2: seq<Entry>, late: Entry)
    requires q.thres >= 2 && l2 != [] && late.arrival == 15.0
    requires rs == [rs[0]] && rs[0].cur == 20.0 && rs[0].width == 1.0
    requires q == Queue(q.thres, [], 25.0, PushBack(rs, q.thres, l2), [], 10.0)
    ensures var q' := q.(bottom := [late]);
      && Step(q, PushOp(late)) == (PushOut(Accepted), q')
      && Dequeue(q').0 == Some(late) && l2[0] in Stored(Dequeue(q').1)
  {
    assert Lowest(q.ladder).cur == 19.0;
    PushBackContents(rs, q.thres, l2);
    assert l2[0] in multiset(l2);
  }

  /** For every threshold there is a run, with records in creation order and finite times, that
      ends with a dequeue returning an event although an earlier one is stored. */
  lemma {:induction false} PushBackBreaksOrder(thres: nat)
    requires thres >= 2
    ensures var q, ops, late := Initial(thres), BreakingRun(thres), At(15.0, 2 * thres + 3);
      && ops != [] && ops[|ops| - 1] == DequeueOp
      && Outputs(q, ops)[|ops| - 1] == DequeueOut(Some(late))
      && At(12.0, thres + 2) in Stored(After(q, ops))
  {
    hide Step, After, Outputs, Stored;
    var q, late := Initial(thres), At(15.0, 2 * thres + 3);
    var s1, s2, s3 := [PushOp(At(10.0, 0)), PushOp(At(20.0, 1)), DequeueOp],
      Pushes(Burst(20.0, thres, 2)), Pushes(Burst(12.0, thres + 1, thres + 2));
    var l1, l2 := [At(20.0, 1)] + Burst(20.0, thres, 2), Burst(12.0, thres + 1, thres + 2);
    var ops := s1 + s2 + s3;
    BreakingStart(thres);
    AfterAppend(q, s1, s2);
    AfterAppend(q, s1 + s2, s3);
    BreakingMiddle(After(q, s1), l1);
    BreakingEnd(After(q, s1 + s2), l1, l2);
    LateEventFirst(After(q, ops), [Rung(20.0, 1.0, l1)], l2, late);
    AfterSnoc(q, ops, PushOp(late));
    AfterSnoc(q, ops + [PushOp(late)], DequeueOp);
    DequeueStep(After(q, ops + [PushOp(late)]));
    assert BreakingRun(thres) == ops + [PushOp(late)] + [DequeueOp];
  }

  lemma {:induction false} DequeueStep(q: Queue)
    requires q.thres >= 2
    ensures Step(q, DequeueOp) == (DequeueOut(Dequeue(q).0), Dequeue(q).1)
  {
  }
}
