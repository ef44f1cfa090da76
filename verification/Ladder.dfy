/** The ladder as the source builds it: rungs of buckets, changed in place. */
module Ladders {
  import opened Entries
  import opened LadderSpec
  import opened RungStates
  import opened Tiers

  class Ladder {
    const thres: nat
    var lowestRung: nat
    var nbc: nat
    var bucketsFirstRung: nat
    var rungs: seq<RungState>

    ghost predicate Counted()
      reads this
    {
      Counts(rungs, lowestRung, nbc, thres) && rungs[0].buckets == bucketsFirstRung
    }

    /** The live rungs as LadderSpec knows them. */
    ghost function Live(): Rungs
      requires AllFiled(rungs) && lowestRung < |rungs|
      reads this
    {
      LiveView(rungs, lowestRung)
    }

    /** Between operations the books are right, the rungs stand in their places, and no rung is
        open below an empty first one. */
    ghost predicate Valid()
      reads this
    {
      && Counted()
      && (nbc > 0 ==> Standing(rungs, lowestRung, 0, thres))
      && (rungs[0].events == 0 ==> lowestRung == 0)
    }

    constructor (p_thres: nat)
      requires p_thres >= 2
      ensures Valid()
      ensures thres == p_thres && nbc == 0 && Live() == [Rung(DBL_MAX, 0.0, [])]
    {
      thres := p_thres;
      lowestRung, nbc, bucketsFirstRung := 0, 0, p_thres;
      rungs := [EmptyRung(p_thres), EmptyRung(p_thres), EmptyRung(p_thres)];
      new;
      assert Live() == [Rung(DBL_MAX, 0.0, [])];
      assert Size(Live()[..0]) == 0;
    }

    /** m_NBC is the sum of m_events over all rungs, and each m_events the sum over the rung's
        buckets. */
    lemma {:induction false} CountsAgree()
      requires Valid()
      ensures nbc == SumEvents(rungs)
      ensures forall r :: 0 <= r < |rungs| ==> rungs[r].events == BucketSizes(rungs[r].lists)
    {
      SumIsSize(rungs[..lowestRung + 1]);
      SumExtends(rungs, lowestRung + 1);
      forall r | 0 <= r < |rungs| ensures rungs[r].events == BucketSizes(rungs[r].lists) {
        BucketsAddUp(rungs[r]);
      }
    }

    /** Each live rung accepts from no later than the rung above it. */
    lemma {:induction false} LowerRungsAcceptEarlier(r: nat)
      requires Valid() && nbc > 0 && 0 < r <= lowestRung
      ensures rungs[r].cur <= rungs[r - 1].cur
    {
      var s := rungs[r];
      assert Placed(s, 0) && SpansTo(s, rungs[r - 1], thres);
      assert Dimensioned(s, r, lowestRung, thres) && s.current <= thres - 1;
      hide Counts, Standing, Placed, SpansTo;
      NotPastParent(s, rungs[r - 1], thres);
    }

    /** While there are events at all, the first rung holds some. */
    lemma {:induction false} FirstRungOccupied()
      requires Valid() && nbc > 0
      ensures rungs[0].events > 0
    {
      if lowestRung == 0 {
        assert Size(Live()) == Size(Live()[..0]) + |Live()[0].events|;
      }
    }

    method UpdateNEvents(r: nat, size: int)
      requires r < |rungs| && rungs[r].events + size >= 0 && nbc + size >= 0
      modifies this`rungs, this`nbc
      ensures rungs == old(rungs)[r := old(rungs)[r].(events := old(rungs)[r].events + size)]
      ensures nbc == old(nbc) + size
    {
      rungs := rungs[r := rungs[r].(events := rungs[r].events + size)];
      nbc := nbc + size;
    }

    /** Appends one event to a bucket and counts it. */
    method Enlist(r: nat, b: nat, e: Entry)
      requires r < |rungs| && b == rungs[r].current < |rungs[r].lists|
      modifies this`rungs, this`nbc
      ensures rungs == old(rungs)[r := With(old(rungs)[r], [e])]
      ensures nbc == old(nbc) + 1
    {
      rungs := rungs[r := rungs[r].(lists := rungs[r].lists[b := rungs[r].lists[b] + [e]])];
      UpdateNEvents(r, 1);
    }

    /** The search of Ladder::push: the first rung, from the top, that accepts the time. */
    method SearchRung(t: real) returns (n: nat)
      requires Counted() && rungs[lowestRung].cur <= t
      ensures n <= lowestRung && rungs[n].cur <= t
      ensures n > 0 ==> t < rungs[n - 1].cur
      ensures n == FindRung(Live(), t, 0)
    {
      n := 0;
      while t < rungs[n].cur && n < lowestRung
        invariant 0 <= n <= lowestRung
        invariant n > 0 ==> t < rungs[n - 1].cur
        invariant FindRung(Live(), t, 0) == FindRung(Live(), t, n)
        decreases lowestRung - n
      {
        n := n + 1;
      }
    }

    /** Ladder::push(Entry): the highest accepting rung takes the event, or an exception says
        that there is no epoch or that it comes before every rung. */
    method PushEntry(e: Entry) returns (error: Option<QueueError>)
      requires Valid()
      modifies this`rungs, this`nbc
      ensures Valid()
      ensures error == (if old(nbc) == 0 then Some(NoEpochInit)
                        else if e.arrival < Lowest(old(Live())).cur then Some(RungNotFound) else None)
      ensures error.Some? <==> Insert(old(Live()), e).None?
      ensures Live() == if error.Some? then old(Live()) else Insert(old(Live()), e).value
    {
      if nbc == 0 {
        return Some(NoEpochInit);
      }
      if e.arrival < rungs[lowestRung].cur {
        return Some(RungNotFound);
      }
      var n := SearchRung(e.arrival);
      EnterRung(e, n);
      error := None;
    }

    /** The rung that the search has found takes the event into its current bucket. */
    method EnterRung(e: Entry, n: nat)
      requires Valid() && nbc > 0 && n <= lowestRung && rungs[n].cur <= e.arrival
      requires n > 0 ==> e.arrival < rungs[n - 1].cur
      modifies this`rungs, this`nbc
      ensures Valid() && nbc == old(nbc) + 1
      ensures Live() == Put(old(Live()), n, [e])
    {
      hide Put;
      ghost var parent := if n > 0 then rungs[n - 1] else rungs[0];
      FirstRungOccupied();
      EventFits(rungs[n], e.arrival, n, parent, thres);
      var b := Bucket(e.arrival, rungs[n].start, rungs[n].width, rungs[n].current, rungs[n].buckets);
      WithKeepsStanding(rungs, lowestRung, thres, n, [e]);
      WithCounts(rungs, lowestRung, nbc, thres, n, [e]);
      Enlist(n, b, e);
    }

    /** Ladder::push(rung, list): a rung that has just been started takes the whole list. */
    method PushList(r: nat, list: EntryList)
      requires Counted() && r <= lowestRung
      requires rungs[r].width > 0.0 && rungs[r].current == 0
      modifies this`rungs, this`nbc, list
      ensures Counted()
      ensures rungs == old(rungs)[r := With(old(rungs)[r], old(list.s))]
      ensures nbc == old(nbc) + |old(list.s)|
      ensures Live() == Put(old(Live()), r, old(list.s))
      ensures list.s == []
    {
      hide With;
      ghost var before, all, done := rungs, list.s, [];
      WithCounts(before, lowestRung, nbc, thres, r, all);
      WithWith(before[r], all, []);
      WithWith(before[r], [], []);
      while list.s != []
        invariant all == done + list.s && nbc == old(nbc) + |done|
        invariant rungs == before[r := With(before[r], done)]
        decreases |list.s|
      {
        WithWith(before[r], done, [list.s[0]]);
        done := done + [list.s[0]];
        TakeFirst(r, list);
      }
      assert done == all;
    }

    /** The first event of a list moves to the rung's current bucket. */
    method TakeFirst(r: nat, list: EntryList)
      requires r < |rungs| && list.s != [] && rungs[r].width > 0.0
      requires rungs[r].current == 0 < |rungs[r].lists| == rungs[r].buckets
      modifies this`rungs, this`nbc, list
      ensures rungs == old(rungs)[r := With(old(rungs)[r], [old(list.s)[0]])]
      ensures nbc == old(nbc) + 1 && list.s == old(list.s)[1..]
    {
      var e := list.s[0];
      BucketIsCurrent(e.arrival, rungs[r].start, rungs[r].width, 0, rungs[r].buckets);
      var b := Bucket(e.arrival, rungs[r].start, rungs[r].width, rungs[r].current, rungs[r].buckets);
      list.s := list.s[1..];
      Enlist(r, b, e);
    }

    /** Ladder::createRung: the per-rung arrays grow by one entry. */
    method CreateRung()
      requires Counted() && |rungs| < MAX_RUNGS
      modifies this`rungs
      ensures Counted()
      ensures rungs == old(rungs) + [EmptyRung(thres)]
      ensures Live() == old(Live())
    {
      AppendCounts(rungs, lowestRung, nbc, thres);
      rungs := rungs + [EmptyRung(thres)];
    }

    /** Ladder::resizeFirstRung: twice the size asked for, new and empty. */
    method ResizeFirstRung(base: nat)
      requires Counted() && nbc == 0 && lowestRung == 0
      requires base >= bucketsFirstRung && rungs[0].current == 0
      modifies this`bucketsFirstRung, this`rungs
      ensures Counted() && Live() == old(Live())
      ensures rungs == old(rungs)[0 := old(rungs)[0].(buckets := 2 * base, lists := seq(2 * base, _ => []))]
    {
      EmptyRungs(Live(), 0);
      ghost var s := rungs[0].(buckets := 2 * base, lists := seq(2 * base, _ => []));
      ReplaceCounts(rungs, 0, 0, thres, 0, s);
      bucketsFirstRung := 2 * base;
      rungs := rungs[0 := rungs[0].(buckets := bucketsFirstRung, lists := seq(bucketsFirstRung, _ => []))];
      assert Live() == old(Live());
    }

    /** Ladder::spawn allocates a rung only when none is left over from earlier spawns. */
    method EnsureRungBelow()
      requires Counted() && lowestRung < MAX_RUNGS - 1
      modifies this`rungs
      ensures Counted() && lowestRung + 1 < |rungs| && Live() == old(Live())
      ensures forall r :: 0 <= r <= lowestRung ==> rungs[r] == old(rungs)[r]
    {
      if lowestRung + 1 >= |rungs| && |rungs| < MAX_RUNGS {
        CreateRung();
      }
    }

    /** The first half of Ladder::spawn: one rung further down, empty, reaching one bucket
        width of its parent back from where the parent accepts. */
    method StartRung()
      requires Counted() && lowestRung < MAX_RUNGS - 1
      modifies this`rungs, this`lowestRung
      ensures Counted() && lowestRung == old(lowestRung) + 1
      ensures forall r :: 0 <= r <= old(lowestRung) ==> rungs[r] == old(rungs)[r]
      ensures Child(rungs[lowestRung], rungs[lowestRung - 1], thres)
      ensures Live() == old(Live()) + [Below(Lowest(old(Live())), thres, [])]
    {
      EnsureRungBelow();
      var parent := rungs[lowestRung];
      var start := parent.cur - parent.width;
      var s := rungs[lowestRung + 1].(
        width := parent.width / (thres - 1) as real, start := start, cur := start, current := 0);
      StartCounts(rungs, lowestRung, nbc, thres, s);
      lowestRung := lowestRung + 1;
      rungs := rungs[lowestRung := s];
    }

    /** The second half of Ladder::spawn: the parent's current bucket moves to the new rung. */
    method EnlistParent()
      requires Counted() && lowestRung > 0
      requires Child(rungs[lowestRung], rungs[lowestRung - 1], thres)
      requires rungs[lowestRung].width > 0.0
      requires rungs[lowestRung - 1].current + 1 < rungs[lowestRung - 1].buckets
      modifies this`rungs, this`nbc
      ensures Counted() && nbc == old(nbc)
      ensures var parent := old(rungs)[lowestRung - 1];
        rungs == old(rungs)[lowestRung - 1 := SteppedOn(parent)]
                           [lowestRung := With(old(rungs)[lowestRung], parent.lists[parent.current])]
      ensures var p, live := lowestRung - 1, old(Live());
        Live() == Put(live[p := live[p].(events := [])], lowestRung, live[p].events)
    {
      var p := lowestRung - 1;
      var parent := rungs[p];
      StepCounts(rungs, lowestRung, nbc, thres, p);
      var list := new EntryList();
      list.s := parent.lists[parent.current];
      rungs := rungs[p := parent.(lists := parent.lists[parent.current := []], current := parent.current + 1)];
      UpdateNEvents(p, -|list.s|);
      assert rungs == old(rungs)[p := SteppedOn(parent)];
      PushList(lowestRung, list);
    }

    /** Ladder::spawn: a new lowest rung, if there may be one more; `enlist` moves the parent's
        current bucket, which RCur has already passed, onto it. */
    method Spawn(enlist: bool) returns (spawned: bool)
      requires Counted() && Standing(rungs, lowestRung, if enlist then 1 else 0, thres)
      requires enlist ==> rungs[lowestRung].events > 0
      modifies this`rungs, this`lowestRung, this`nbc
      ensures spawned <==> old(lowestRung) < MAX_RUNGS - 1
      ensures Counted() && nbc == old(nbc)
      ensures !spawned ==> rungs == old(rungs) && lowestRung == old(lowestRung)
      ensures spawned ==>
        && lowestRung == old(lowestRung) + 1 && Standing(rungs, lowestRung, 0, thres)
        && rungs[lowestRung].current == 0
        && (forall r :: 0 <= r < old(lowestRung) ==> rungs[r].events == old(rungs)[r].events)
        && (!enlist ==> rungs[old(lowestRung)].events == old(rungs)[old(lowestRung)].events)
        && Live() == Spawned(old(Live()), enlist, thres)
    {
      hide SpansTo, Child;
      spawned := false;
      if lowestRung < MAX_RUNGS - 1 {
        ghost var rs, low, live := rungs, lowestRung, Live();
        StartRung();
        ChildPlaced(rungs[lowestRung], rungs[lowestRung - 1], thres);
        ghost var started := rungs;
        if enlist {
          EnlistParent();
          ChildTakesOver(rs, low, started, rungs, thres);
          SpawnedIsPut(live, thres);
        } else {
          ChildJoins(rs, low, rungs, thres);
        }
        spawned := true;
      }
    }

    /** Ladder::pushBack: a spawned rung takes the list; with no rung left the list stays. */
    method PushBack(list: EntryList) returns (error: Option<QueueError>)
      requires Valid() && nbc > 0
      modifies this`rungs, this`lowestRung, this`nbc, list
      ensures Valid()
      ensures error == if |old(Live())| < MAX_RUNGS then None else Some(RungOutOfBounds)
      ensures error.None? ==> Live() == LadderSpec.PushBack(old(Live()), thres, old(list.s)) && list.s == []
      ensures error.Some? ==> Live() == old(Live()) && list.s == old(list.s)
    {
      FirstRungOccupied();
      ghost var live := Live();
      var spawned := Spawn(false);
      if !spawned {
        return Some(RungOutOfBounds);
      }
      PushBackIsPut(live, thres, list.s);
      Receive(list);
      error := None;
    }

    /** A rung spawned without its parent's events takes the list instead. */
    method Receive(list: EntryList)
      requires Counted() && Standing(rungs, lowestRung, 0, thres)
      requires lowestRung > 0 && rungs[lowestRung].current == 0 && rungs[0].events > 0
      modifies this`rungs, this`nbc, list
      ensures Valid() && list.s == []
      ensures Live() == Put(old(Live()), lowestRung, old(list.s))
    {
      WithKeepsStanding(rungs, lowestRung, thres, lowestRung, list.s);
      PushList(lowestRung, list);
    }

    /** Ladder::push(list, max, min): a new epoch on the first rung, resized when the list asks
        for more buckets than it has. The result of the library's approximate comparison of
        `max` and `min` is left open: it only decides the resizing. */
    method PushEpoch(list: EntryList, max: real, min: real) returns (error: Option<QueueError>)
      requires Valid() && min <= max
      modifies this, list
      ensures Valid()
      ensures error == if old(nbc) != 0 then Some(EpochExists) else None
      ensures error.Some? || old(list.s) == [] ==> Live() == old(Live()) && list.s == old(list.s)
      ensures error.None? && old(list.s) != [] ==> Live() == Epoch(old(list.s), max, min) && list.s == []
    {
      if nbc != 0 {
        return Some(EpochExists);
      }
      error := None;
      if list.s == [] {
        return;
      }
      ghost var before, n := rungs, |list.s|;
      var width := BucketWidth(max, min, |list.s|);
      WidthIsPositive(max, min, |list.s|);
      lowestRung := ResetRungs(width, min);
      EpochReady(before, old(lowestRung), rungs, thres);
      FitFirstRung(max, min, width);
      assert [] + list.s == list.s;
      PushList(0, list);
    }

    /** The first rung is resized when the times span more buckets than it has. */
    method FitFirstRung(max: real, min: real, width: real)
      requires Counted() && nbc == 0 && lowestRung == 0 && rungs[0].current == 0
      requires min <= max && width > 0.0
      modifies this`bucketsFirstRung, this`rungs
      ensures Counted() && Live() == old(Live()) && rungs[0].current == 0
      ensures rungs[0].start == old(rungs)[0].start && rungs[0].events == old(rungs)[0].events
    {
      var cmp: int := *;
      var diff := if cmp <= 0 then 0.0 else max - min;
      QuotientBound(diff, width, 0);
      var wanted := (diff / width).Floor;
      if wanted >= bucketsFirstRung {
        ResizeFirstRung(wanted);
      }
    }

    /** The first rung gets the epoch's width and start, and every rung's current bucket is 0. */
    method ResetRungs(width: real, min: real) returns (lowest: nat)
      requires |rungs| > 0
      modifies this`rungs
      ensures lowest == 0 && |rungs| == |old(rungs)|
      ensures forall r :: 0 < r < |rungs| ==> rungs[r] == old(rungs)[r].(current := 0)
      ensures rungs[0] == old(rungs)[0].(current := 0, width := width, start := min, cur := min)
    {
      lowest := 0;
      rungs := rungs[0 := rungs[0].(width := width, start := min, cur := min)];
      ghost var base := rungs;
      for i := 0 to |rungs|
        invariant |rungs| == |base|
        invariant forall r :: 0 <= r < i ==> rungs[r] == base[r].(current := 0)
        invariant forall r :: i <= r < |rungs| ==> rungs[r] == base[r]
      {
        rungs := rungs[i := rungs[i].(current := 0)];
      }
    }

    /** The search of advanceDequeueBucket: on to the lowest rung's next non-empty bucket, RCur
        in step. */
    method FindBucket()
      requires lowestRung < |rungs|
      requires var s := rungs[lowestRung]; exists j :: s.current <= j < |s.lists| && s.lists[j] != []
      modifies this`rungs
      ensures |rungs| == |old(rungs)|
      ensures var s, c := old(rungs)[lowestRung], rungs[lowestRung].current;
        && s.current <= c < |s.lists| && s.lists[c] != []
        && (forall j :: s.current <= j < c ==> s.lists[j] == [])
        && rungs == old(rungs)[lowestRung := SteppedTo(s, c)]
    {
      hide SteppedTo;
      var l := lowestRung;
      ghost var s := rungs[l];
      SteppedToNext(s, s.current);
      while |rungs[l].lists[rungs[l].current]| == 0
        invariant |rungs| == |old(rungs)| && s.current <= rungs[l].current < |s.lists| == |rungs[l].lists|
        invariant rungs[l].lists == s.lists
        invariant var c := rungs[l].current;
          && (forall j :: s.current <= j < c ==> s.lists[j] == [])
          && rungs == old(rungs)[l := SteppedTo(s, c)]
        invariant exists j :: rungs[l].current <= j < |s.lists| && s.lists[j] != []
        decreases |s.lists| - rungs[l].current
      {
        SteppedToNext(s, rungs[l].current);
        rungs := rungs[l := rungs[l].(current := rungs[l].current + 1, cur := rungs[l].cur + rungs[l].width)];
      }
    }

    /** The first loop of advanceDequeueBucket: empty rungs are retired from the low end. */
    method RetireEmpty(ghost ahead: nat)
      requires Counted() && Standing(rungs, lowestRung, ahead, thres) && nbc > 0
      requires ahead > 0 ==> rungs[lowestRung].events > 0
      requires rungs[0].events == 0 ==> lowestRung <= 1
      modifies this`rungs, this`lowestRung
      ensures Counted() && Standing(rungs, lowestRung, ahead, thres)
      ensures lowestRung <= old(lowestRung) && rungs[0].events == old(rungs)[0].events
      ensures Live() == DropEmpty(old(Live()))
      ensures rungs[lowestRung].events > 0
    {
      hide Standing, DropEmpty;
      while lowestRung > 0 && rungs[lowestRung].events == 0
        invariant Counted() && Standing(rungs, lowestRung, ahead, thres)
        invariant ahead > 0 ==> rungs[lowestRung].events > 0
        invariant lowestRung <= old(lowestRung) && rungs[0].events == old(rungs)[0].events
        invariant DropEmpty(Live()) == DropEmpty(old(Live()))
        decreases lowestRung
      {
        RetireLowest();
      }
      NothingToRetire(rungs, lowestRung, nbc, thres);
    }

    /** The lowest rung is empty: it is retired, and the rungs above it still stand. */
    method RetireLowest()
      requires Counted() && Standing(rungs, lowestRung, 0, thres)
      requires lowestRung > 0 && rungs[lowestRung].events == 0
      modifies this`rungs, this`lowestRung
      ensures Counted() && lowestRung == old(lowestRung) - 1 && Standing(rungs, lowestRung, 0, thres)
      ensures rungs[0].events == old(rungs)[0].events
      ensures DropEmpty(Live()) == DropEmpty(old(Live()))
    {
      ghost var rs := rungs;
      Retire();
      StandsShorter(rs, rungs, lowestRung + 1, 0, thres);
    }

    /** One empty rung is given up: its times go back to "none", its current bucket to 0. */
    method Retire()
      requires Counted() && lowestRung > 0 && rungs[lowestRung].events == 0
      modifies this`rungs, this`lowestRung
      ensures Counted() && lowestRung == old(lowestRung) - 1 && |rungs| == |old(rungs)|
      ensures forall r :: 0 <= r <= lowestRung ==> rungs[r] == old(rungs)[r]
      ensures Live() == old(Live())[..lowestRung + 1]
    {
      ghost var s := rungs[lowestRung].(cur := DBL_MAX, start := DBL_MAX, current := 0);
      EmptyLists(rungs[lowestRung]);
      RetireCounts(rungs, lowestRung, nbc, thres, s);
      rungs := rungs[lowestRung := rungs[lowestRung].(cur := DBL_MAX, start := DBL_MAX, current := 0)];
      lowestRung := lowestRung - 1;
    }

    /** The two loops of advanceDequeueBucket. The second one finds the current bucket filled. */
    method NextBucket(ghost ahead: nat) returns (elements: nat)
      requires Counted() && Standing(rungs, lowestRung, ahead, thres) && nbc > 0
      requires ahead > 0 ==> rungs[lowestRung].events > 0
      requires rungs[0].events == 0 ==> lowestRung <= 1
      modifies this`rungs, this`lowestRung
      ensures Counted() && Standing(rungs, lowestRung, ahead, thres)
      ensures lowestRung <= old(lowestRung) && rungs[0].events == old(rungs)[0].events
      ensures Live() == DropEmpty(old(Live()))
      ensures elements == rungs[lowestRung].events > 0
    {
      RetireEmpty(ahead);
      ghost var s, rs := rungs[lowestRung], rungs;
      FindBucket();
      assert rungs == rs by { SteppedToNext(s, s.current); assert rs[lowestRung := s] == rs; }
      elements := |rungs[lowestRung].lists[rungs[lowestRung].current]|;
    }

    /** Ladder::advanceDequeueBucket: the lowest rung with events, its current bucket found
        without a step; with `spawn`, more than `thres` events go one rung deeper. The source's
        call of itself, without `spawn`, runs the two loops once more. */
    method AdvanceDequeueBucket(spawn: bool) returns (ghost ahead: nat)
      requires Valid() && nbc > 0
      modifies this`rungs, this`lowestRung, this`nbc
      ensures Counted()
      ensures Live() == Advanced(DropEmpty(old(Live())), spawn, thres)
      ensures Standing(rungs, lowestRung, ahead, thres)
      ensures ahead == 0 || lowestRung == MAX_RUNGS - 1
      ensures rungs[0].events == 0 ==> lowestRung <= 1
    {
      var elements := NextBucket(0);
      ahead := 0;
      if spawn && elements > thres {
        ahead := SpawnAndSettle();
      }
    }

    method SpawnAndSettle() returns (ghost ahead: nat)
      requires Counted() && Standing(rungs, lowestRung, 0, thres)
      requires rungs[lowestRung].events > thres
      requires rungs[0].events == 0 ==> lowestRung == 0
      requires nbc > 0
      modifies this`rungs, this`lowestRung, this`nbc
      ensures Counted()
      ensures Live() == Advanced(old(Live()), true, thres)
      ensures Standing(rungs, lowestRung, ahead, thres)
      ensures ahead == 0 || lowestRung == MAX_RUNGS - 1
      ensures rungs[0].events == 0 ==> lowestRung <= 1
    {
      AdvancedOccupied(Live(), true, thres);
      var spawned := SpawnCrowded();
      ahead := if spawned then 0 else 1;
      var _ := NextBucket(ahead);
    }

    /** The spawning step of advanceDequeueBucket: RCur moves past the bucket, whose events go
        to a new rung if there can be one. */
    method SpawnCrowded() returns (spawned: bool)
      requires Counted() && Standing(rungs, lowestRung, 0, thres)
      requires rungs[lowestRung].events > thres
      requires rungs[0].events == 0 ==> lowestRung == 0
      modifies this`rungs, this`lowestRung, this`nbc
      ensures Counted() && nbc == old(nbc)
      ensures spawned <==> |old(Live())| < MAX_RUNGS
      ensures Live() == Advanced(old(Live()), true, thres)
      ensures Standing(rungs, lowestRung, if spawned then 0 else 1, thres)
      ensures rungs[0].events == 0 ==> lowestRung <= 1
    {
      hide Standing, Spawned;
      ghost var s := rungs[lowestRung];
      BumpStands(rungs, lowestRung, nbc, thres, s.(cur := s.cur + s.width));
      rungs := rungs[lowestRung := rungs[lowestRung].(cur := rungs[lowestRung].cur + rungs[lowestRung].width)];
      spawned := Spawn(true);
    }

    /** Ladder::delist: the next list of events, and one rung fewer if that was a rung's last. */
    method Delist() returns (list: EntryList)
      requires Valid() && nbc > 0
      modifies this`rungs, this`lowestRung, this`nbc
      ensures Valid() && fresh(list)
      ensures list.s != [] && (list.s, Live()) == LadderSpec.Delist(old(Live()), thres)
    {
      ghost var live := DropEmpty(Live());
      DropEmptyContents(Live());
      DropEmptyTwice(Live());
      DelistOfLive(Live(), thres);
      ghost var ahead := AdvanceDequeueBucket(true);
      DelistIsHandOut(live, thres, Live());
      AdvancedOccupied(live, true, thres);
      list := new EntryList();
      HandOut(list, ahead);
    }

    /** The current bucket of the lowest rung is handed out, RCur invalidates it, and an emptied
        rung above the first is given up. */
    method HandOut(list: EntryList, ghost ahead: nat)
      requires Counted() && Standing(rungs, lowestRung, ahead, thres) && rungs[lowestRung].events > 0
      requires ahead == 0 || lowestRung == MAX_RUNGS - 1
      requires rungs[0].events == 0 ==> lowestRung <= 1
      modifies this`rungs, this`nbc, this`lowestRung, list
      ensures Valid()
      ensures list.s == Lowest(old(Live())).events
      ensures var n, live := old(lowestRung), old(Live());
        Live() == if n > 0 then live[..n] else live[n := Passed(live[n])]
    {
      var l := lowestRung;
      HandOutCounts(rungs, l, nbc, thres, ahead);
      if l == 0 { HandOutStands(rungs, thres); }
      var s := rungs[l];
      list.s := s.lists[s.current];
      UpdateNEvents(l, -|list.s|);
      rungs := rungs[l := rungs[l].(
        lists := s.lists[s.current := []], cur := s.cur + s.width, current := s.current + 1)];
      assert rungs == old(rungs)[l := HandedOut(s)];
      if lowestRung > 0 && rungs[lowestRung].events == 0 {
        Retire();
      }
    }
  }
}
