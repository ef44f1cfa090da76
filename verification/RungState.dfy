/** The state of the ladder's rungs: buckets, counts and geometry, and how single changes
    to a rung keep them. */
module RungStates {
  import opened Entries
  import opened LadderSpec

  // ---- the bucket of a timestamp -----------------------------------------------------

  /** Ladder::bucket with its three corrections. */
  function Bucket(ts: real, start: real, width: real, current: nat, buckets: nat): (b: int)
    requires width > 0.0
  {
    var diff := if ts - start <= 0.0 then 0.0 else ts - start;
    var raw := (diff / width).Floor;
    var raised := if raw < current then raw + 1 else raw;
    var capped := if raised >= buckets then buckets - 1 else raised;
    if capped > current then current else capped
  }

  lemma {:induction false} QuotientBound(diff: real, width: real, k: int)
    requires width > 0.0
    ensures (diff / width).Floor >= k <==> diff >= k as real * width
  {
    var x := diff / width;
    assert x * width == diff;
    assert x >= k as real <==> x * width >= k as real * width;
  }

  /** The corrections pin the bucket to the current one: for every timestamp that is not more
      than one bucket behind, whatever its distance ahead. */
  lemma {:induction false} BucketIsCurrent(ts: real, start: real, width: real, current: nat, buckets: nat)
    requires width > 0.0 && current < buckets
    ensures Bucket(ts, start, width, current, buckets) == current
      <==> current <= 1 || ts >= start + (current - 1) as real * width
  {
    var diff := if ts - start <= 0.0 then 0.0 else ts - start;
    QuotientBound(diff, width, current - 1);
    QuotientBound(diff, width, 0);
    if current > 1 {
      assert (current - 1) as real * width > 0.0;
    }
  }

  /** The header promises the partition of times into buckets of equal width. The corrections
      leave it standing for the times of the current bucket, and for no others. */
  lemma {:induction false} BucketIsFloorIff(ts: real, start: real, width: real, current: nat, buckets: nat)
    requires width > 0.0 && current < buckets
    ensures Bucket(ts, start, width, current, buckets) == ((ts - start) / width).Floor
      <==> start + current as real * width <= ts < start + (current + 1) as real * width
  {
    QuotientBound(ts - start, width, 0);
    QuotientBound(ts - start, width, current);
    QuotientBound(ts - start, width, current + 1);
    NonNegativeProduct(current as real, width);
    if ts <= start { QuotientBound(0.0, width, 1); QuotientBound(0.0, width, 0); }
  }

  /** A time in the third bucket of a rung that has not moved on is filed in the first. */
  lemma {:induction false} BucketIsNotFloor()
    ensures Bucket(25.0, 0.0, 10.0, 0, 50) == 0 && (25.0 / 10.0).Floor == 2
  {
    BucketIsCurrent(25.0, 0.0, 10.0, 0, 50);
    QuotientBound(25.0, 10.0, 2);
    QuotientBound(25.0, 10.0, 3);
  }

  // ---- the rungs' geometry -----------------------------------------------------------

  /** A spawned rung's last bucket ends where its parent still accepts. */
  lemma {:induction false} ChildSpan(width: real, thres: nat)
    requires thres >= 2
    ensures (thres - 1) as real * (width / (thres - 1) as real) == width
    ensures width > 0.0 ==> width / (thres - 1) as real > 0.0
  {
    var n := (thres - 1) as real;
    assert n * (width / n) == width;
  }

  lemma {:induction false} NonNegativeProduct(a: real, w: real)
    requires a >= 0.0 && w >= 0.0
    ensures a * w >= 0.0
  {
  }

  lemma {:induction false} CancelFactor(a: real, b: real, w: real)
    requires a * w < b * w && w > 0.0
    ensures a < b
  {
    assert (b - a) * w > 0.0;
  }

  /** A rung that accepts a time its parent does not has room left. */
  lemma {:induction false} RoomBelowParent(t: real, start: real, width: real, current: nat, thres: nat)
    requires width > 0.0 && thres >= 2
    requires start + current as real * width <= t < start + (thres - 1) as real * width
    ensures current + 1 < thres
  {
    CancelFactor(current as real, (thres - 1) as real, width);
  }

  lemma {:induction false} EmptyRungs(rs: seq<Rung>, r: nat)
    requires Size(rs) == 0 && r < |rs|
    ensures rs[r].events == []
  {
    if r == |rs| - 1 {
    } else {
      EmptyRungs(rs[..|rs| - 1], r);
    }
  }

  // ---- one rung's share of the source's parallel arrays ------------------------------

  /** m_events[r], m_currentBucket[r], m_buckets[r], m_bucketwidth[r], m_RCur[r], m_RStart[r]
      and the bucket lists m_rungs[r]. */
  datatype RungState = RungState(events: nat, current: nat, buckets: nat, width: real,
                                 cur: real, start: real, lists: seq<seq<Entry>>)

  function EmptyRung(buckets: nat): RungState {
    RungState(0, 0, buckets, 0.0, DBL_MAX, DBL_MAX, seq(buckets, _ => []))
  }

  /** All events of the rung lie in its current bucket, and the count says how many. */
  ghost predicate Filed(s: RungState) {
    && s.current < s.buckets == |s.lists|
    && s.events == |s.lists[s.current]|
    && forall i :: 0 <= i < s.buckets && i != s.current ==> s.lists[i] == []
  }

  function Seen(s: RungState): Rung
    requires s.current < |s.lists|
  {
    Rung(s.cur, s.width, s.lists[s.current])
  }

  ghost predicate AllFiled(rs: seq<RungState>) {
    forall r :: 0 <= r < |rs| ==> Filed(rs[r])
  }

  /** The rungs as LadderSpec knows them. */
  ghost function View(rs: seq<RungState>): (v: seq<Rung>)
    requires AllFiled(rs)
    ensures |v| == |rs| && forall r :: 0 <= r < |rs| ==> v[r] == Seen(rs[r])
  {
    seq(|rs|, r requires 0 <= r < |rs| && AllFiled(rs) => Seen(rs[r]))
  }

  /** The rung accepts from its current bucket on, or `ahead` buckets past it; while it holds
      events it has a further bucket to step to. */
  ghost predicate Placed(s: RungState, ahead: nat) {
    && s.cur == s.start + (s.current + ahead) as real * s.width
    && s.width > 0.0
    && (s.events > 0 ==> s.current + 1 < s.buckets)
  }

  /** A spawned rung spans `thres - 1` bucket widths, up to where its parent accepts. */
  ghost predicate SpansTo(s: RungState, parent: RungState, thres: nat) {
    s.start + (thres - 1) as real * s.width == parent.cur
  }

  /** Every live rung is placed and spans to its parent. The lowest may be `ahead`. */
  ghost predicate Standing(rs: seq<RungState>, lowest: nat, ahead: nat, thres: nat)
    requires lowest < |rs|
  {
    && (forall r :: 0 <= r < lowest ==> Placed(rs[r], 0))
    && Placed(rs[lowest], ahead)
    && (forall r :: 0 < r <= lowest ==> SpansTo(rs[r], rs[r - 1], thres))
  }

  /** A rung on its way to where its parent accepts has not passed it. */
  lemma {:induction false} NotPastParent(s: RungState, parent: RungState, thres: nat)
    requires Placed(s, 0) && SpansTo(s, parent, thres) && s.current + 1 <= thres
    ensures s.cur <= parent.cur
  {
    var a, b := s.current as real, (thres - 1) as real;
    LargerProduct(a, b, s.width);
  }

  lemma {:induction false} LargerProduct(a: real, b: real, w: real)
    requires a <= b && w > 0.0
    ensures a * w <= b * w
  {
    NonNegativeProduct(b - a, w);
    assert (b - a) * w == b * w - a * w;
  }

  /** Without its lowest rung the ladder still stands. */
  lemma {:induction false} StandsShorter(rs: seq<RungState>, rs': seq<RungState>, lowest: nat, ahead: nat, thres: nat)
    requires 0 < lowest < |rs| == |rs'| && Standing(rs, lowest, ahead, thres)
    requires forall r :: 0 <= r < lowest ==> rs'[r] == rs[r]
    ensures Standing(rs', lowest - 1, 0, thres)
  {
  }

  function SumEvents(rs: seq<RungState>): nat {
    if rs == [] then 0 else SumEvents(rs[..|rs| - 1]) + rs[|rs| - 1].events
  }

  function BucketSizes(lists: seq<seq<Entry>>): nat {
    if lists == [] then 0 else BucketSizes(lists[..|lists| - 1]) + |lists[|lists| - 1]|
  }

  lemma {:induction false} SumIsSize(rs: seq<RungState>)
    requires AllFiled(rs)
    ensures SumEvents(rs) == Size(View(rs))
  {
    if rs == [] {
    } else {
      SumIsSize(rs[..|rs| - 1]);
      assert View(rs)[..|rs| - 1] == View(rs[..|rs| - 1]);
    }
  }

  lemma {:induction false} SumExtends(rs: seq<RungState>, n: nat)
    requires n <= |rs| && forall r :: n <= r < |rs| ==> rs[r].events == 0
    ensures SumEvents(rs) == SumEvents(rs[..n])
  {
    if n < |rs| {
      SumExtends(rs[..|rs| - 1], n);
      assert rs[..|rs| - 1][..n] == rs[..n];
    } else {
      assert rs[..n] == rs;
    }
  }

  /** A rung's bucket sizes add up to its event count. */
  lemma {:induction false} BucketsAddUp(s: RungState)
    requires Filed(s)
    ensures BucketSizes(s.lists) == s.events
  {
    BucketsUpTo(s, s.buckets);
    assert s.lists[..s.buckets] == s.lists;
  }

  lemma {:induction false} BucketsUpTo(s: RungState, n: nat)
    requires Filed(s) && n <= s.buckets
    ensures BucketSizes(s.lists[..n]) == if n > s.current then s.events else 0
  {
    if n == 0 {
    } else {
      BucketsUpTo(s, n - 1);
      assert s.lists[..n][..n - 1] == s.lists[..n - 1];
    }
  }

  // ---- the books: what is stored where -----------------------------------------------

  /** The live rungs, 0 to `lowest`. */
  ghost function LiveView(rs: seq<RungState>, lowest: nat): Rungs
    requires AllFiled(rs) && lowest < |rs|
  {
    View(rs[..lowest + 1])
  }

  /** Only the first rung may have more than `thres` buckets; dead rungs hold nothing. */
  ghost predicate Dimensioned(s: RungState, r: nat, lowest: nat, thres: nat) {
    && (s.buckets == thres || (r == 0 && s.buckets > thres))
    && (r > lowest ==> s.events == 0)
  }

  /** All rungs are filed, dead ones are empty, and `nbc` counts every event. */
  ghost predicate Counts(rs: seq<RungState>, lowest: nat, nbc: nat, thres: nat) {
    && thres >= 2 && 3 <= |rs| <= MAX_RUNGS && lowest < |rs|
    && AllFiled(rs)
    && (forall r :: 0 <= r < |rs| ==> Dimensioned(rs[r], r, lowest, thres))
    && nbc == Size(LiveView(rs, lowest))
  }

  lemma {:induction false} ReplaceView(rs: seq<RungState>, lowest: nat, r: nat, s: RungState)
    requires AllFiled(rs) && r <= lowest < |rs| && Filed(s)
    ensures AllFiled(rs[r := s])
    ensures LiveView(rs[r := s], lowest) == LiveView(rs, lowest)[r := Seen(s)]
  {
    assert rs[r := s][..lowest + 1] == rs[..lowest + 1][r := s];
  }

  /** Replacing one live rung. */
  lemma {:induction false} ReplaceCounts(rs: seq<RungState>, lowest: nat, nbc: nat, thres: nat, r: nat, s: RungState)
    requires Counts(rs, lowest, nbc, thres) && r <= lowest && Filed(s)
    requires s.buckets == rs[r].buckets || (r == 0 && s.buckets >= thres)
    ensures nbc - rs[r].events + s.events >= 0
    ensures Counts(rs[r := s], lowest, nbc - rs[r].events + s.events, thres)
    ensures LiveView(rs[r := s], lowest) == LiveView(rs, lowest)[r := Seen(s)]
  {
    hide LiveView;
    ReplaceView(rs, lowest, r, s);
    LiveAt(rs, lowest, r);
    ReplaceEvents(LiveView(rs, lowest), r, Seen(s));
  }

  lemma {:induction false} LiveAt(rs: seq<RungState>, lowest: nat, r: nat)
    requires AllFiled(rs) && r <= lowest < |rs|
    ensures |LiveView(rs, lowest)| == lowest + 1 && LiveView(rs, lowest)[r] == Seen(rs[r])
  {
  }

  /** Giving up the lowest rung once it is empty. */
  lemma {:induction false} RetireCounts(rs: seq<RungState>, lowest: nat, nbc: nat, thres: nat, s: RungState)
    requires Counts(rs, lowest, nbc, thres) && lowest > 0 && rs[lowest].events == 0
    requires Filed(s) && s.events == 0 && s.buckets == thres
    ensures Counts(rs[lowest := s], lowest - 1, nbc, thres)
    ensures LiveView(rs[lowest := s], lowest - 1) == LiveView(rs, lowest)[..lowest]
  {
    var rs' := rs[lowest := s];
    assert rs'[..lowest] == rs[..lowest];
    assert AllFiled(rs') && LiveView(rs', lowest - 1) == LiveView(rs, lowest)[..lowest];
  }

  /** Opening the next rung, empty. */
  lemma {:induction false} DeepenCounts(rs: seq<RungState>, lowest: nat, nbc: nat, thres: nat, s: RungState)
    requires Counts(rs, lowest, nbc, thres) && lowest + 1 < |rs|
    requires Filed(s) && s.events == 0 && s.buckets == thres
    ensures Counts(rs[lowest + 1 := s], lowest + 1, nbc, thres)
    ensures LiveView(rs[lowest + 1 := s], lowest + 1) == LiveView(rs, lowest) + [Seen(s)]
  {
    var rs' := rs[lowest + 1 := s];
    assert rs'[..lowest + 2] == rs[..lowest + 1] + [s];
    assert AllFiled(rs') && LiveView(rs', lowest + 1) == LiveView(rs, lowest) + [Seen(s)];
    assert LiveView(rs', lowest + 1)[..lowest + 1] == LiveView(rs, lowest);
  }

  /** Allocating one more rung. */
  lemma {:induction false} AppendCounts(rs: seq<RungState>, lowest: nat, nbc: nat, thres: nat)
    requires Counts(rs, lowest, nbc, thres) && |rs| < MAX_RUNGS
    ensures Counts(rs + [EmptyRung(thres)], lowest, nbc, thres)
    ensures LiveView(rs + [EmptyRung(thres)], lowest) == LiveView(rs, lowest)
  {
    assert (rs + [EmptyRung(thres)])[..lowest + 1] == rs[..lowest + 1];
  }

  /** When the lowest rung holds events or is the only one, and there are events, it holds some. */
  lemma {:induction false} NothingToRetire(rs: seq<RungState>, lowest: nat, nbc: nat, thres: nat)
    requires Counts(rs, lowest, nbc, thres) && nbc > 0 && (lowest == 0 || rs[lowest].events > 0)
    ensures DropEmpty(LiveView(rs, lowest)) == LiveView(rs, lowest) && rs[lowest].events > 0
  {
    DropEmptyContents(LiveView(rs, lowest));
  }

  /** An empty ladder whose current buckets have been reset is ready for an epoch. */
  lemma {:induction false} EpochReady(before: seq<RungState>, lowest: nat, rs: seq<RungState>, thres: nat)
    requires Counts(before, lowest, 0, thres) && |rs| == |before|
    requires forall r :: 0 <= r < |rs| ==>
      && rs[r].current == 0 && rs[r].events == before[r].events
      && rs[r].lists == before[r].lists && rs[r].buckets == before[r].buckets
    ensures Counts(rs, 0, 0, thres)
    ensures LiveView(rs, 0) == [Rung(rs[0].cur, rs[0].width, [])]
    ensures forall r :: 0 <= r < |rs| ==> rs[r].events == 0
  {
    forall r | 0 <= r < |rs| ensures rs[r].events == 0 && Filed(rs[r]) {
      if r <= lowest { EmptyRungs(LiveView(before, lowest), r); }
      EmptyLists(before[r]);
    }
    var v := LiveView(rs, 0);
    assert v == [Seen(rs[0])];
    assert Size(v[..0]) == 0;
  }

  /** The rung with a list appended to its current bucket. */
  function With(s: RungState, list: seq<Entry>): RungState
    requires s.current < |s.lists|
  {
    s.(lists := s.lists[s.current := s.lists[s.current] + list], events := s.events + |list|)
  }

  lemma {:induction false} WithCounts(rs: seq<RungState>, lowest: nat, nbc: nat, thres: nat, r: nat, list: seq<Entry>)
    requires Counts(rs, lowest, nbc, thres) && r <= lowest
    ensures Counts(rs[r := With(rs[r], list)], lowest, nbc + |list|, thres)
    ensures LiveView(rs[r := With(rs[r], list)], lowest) == Put(LiveView(rs, lowest), r, list)
  {
    ReplaceCounts(rs, lowest, nbc, thres, r, With(rs[r], list));
  }

  /** How a started rung relates to its parent. */
  ghost predicate Child(s: RungState, parent: RungState, thres: nat) {
    && thres >= 2 && s.buckets == thres && s.current == 0 && s.events == 0
    && s.start == parent.cur - parent.width && s.cur == s.start
    && s.width == parent.width / (thres - 1) as real
  }

  /** The rung after its current bucket has been taken out. */
  function SteppedOn(s: RungState): RungState
    requires s.current < |s.lists|
  {
    s.(lists := s.lists[s.current := []], current := s.current + 1, events := 0)
  }

  /** Taking the current bucket out of a rung takes its events off the books. */
  lemma {:induction false} StepCounts(rs: seq<RungState>, lowest: nat, nbc: nat, thres: nat, r: nat)
    requires Counts(rs, lowest, nbc, thres) && r <= lowest && rs[r].current + 1 < rs[r].buckets
    ensures nbc >= rs[r].events
    ensures Counts(rs[r := SteppedOn(rs[r])], lowest, nbc - rs[r].events, thres)
    ensures var live := LiveView(rs, lowest);
      LiveView(rs[r := SteppedOn(rs[r])], lowest) == live[r := live[r].(events := [])]
  {
    assert Filed(SteppedOn(rs[r]));
    ReplaceCounts(rs, lowest, nbc, thres, r, SteppedOn(rs[r]));
  }

  /** Opening the next rung below its parent. */
  lemma {:induction false} StartCounts(rs: seq<RungState>, lowest: nat, nbc: nat, thres: nat, s: RungState)
    requires Counts(rs, lowest, nbc, thres) && lowest + 1 < |rs|
    requires var parent := rs[lowest];
      s == rs[lowest + 1].(width := parent.width / (thres - 1) as real, start := parent.cur - parent.width,
                           cur := parent.cur - parent.width, current := 0)
    ensures Child(s, rs[lowest], thres)
    ensures Counts(rs[lowest + 1 := s], lowest + 1, nbc, thres)
    ensures var live := LiveView(rs, lowest);
      LiveView(rs[lowest + 1 := s], lowest + 1) == live + [Below(Lowest(live), thres, [])]
  {
    EmptyLists(rs[lowest + 1]);
    DeepenCounts(rs, lowest, nbc, thres, s);
    LiveAt(rs, lowest, lowest);
    assert Seen(s) == Below(Seen(rs[lowest]), thres, []);
  }

  lemma {:induction false} ChildPlaced(s: RungState, parent: RungState, thres: nat)
    requires Child(s, parent, thres) && parent.width > 0.0
    ensures Placed(s, 0) && SpansTo(s, parent, thres)
  {
    ChildSpan(parent.width, thres);
  }

  /** A started rung joins the ladder. */
  lemma {:induction false} ChildJoins(rs: seq<RungState>, low: nat, after: seq<RungState>, thres: nat)
    requires low < |rs| && low + 1 < |after| && Standing(rs, low, 0, thres)
    requires forall r :: 0 <= r <= low ==> after[r] == rs[r]
    requires Child(after[low + 1], after[low], thres)
    ensures Standing(after, low + 1, 0, thres)
  {
    ChildPlaced(after[low + 1], after[low], thres);
    forall r | 0 < r <= low + 1 ensures SpansTo(after[r], after[r - 1], thres) {
      if r <= low { assert SpansTo(rs[r], rs[r - 1], thres); }
    }
  }

  /** Once the parent has stepped on, the ladder stands again, one rung deeper. */
  lemma {:induction false} ChildTakesOver(rs: seq<RungState>, low: nat, started: seq<RungState>,
      after: seq<RungState>, thres: nat)
    requires low < |rs| && low + 1 < |started| && thres >= 2 && Standing(rs, low, 1, thres)
    requires forall r :: 0 <= r <= low ==> started[r] == rs[r]
    requires Child(started[low + 1], started[low], thres)
    requires started[low].current < |started[low].lists| && started[low + 1].current < |started[low + 1].lists|
    requires after == started[low := SteppedOn(started[low])]
                             [low + 1 := With(started[low + 1], started[low].lists[started[low].current])]
    ensures Standing(after, low + 1, 0, thres)
  {
    ChildPlaced(started[low + 1], started[low], thres);
    SamePlace(started[low + 1], after[low + 1], 0);
    assert Placed(after[low], 0);
    forall r | 0 < r <= low + 1 ensures SpansTo(after[r], after[r - 1], thres) {
      if r <= low { assert SpansTo(rs[r], rs[r - 1], thres); }
    }
  }

  /** The live rungs after a spawn. */
  function Spawned(live: Rungs, enlist: bool, thres: nat): Rungs
    requires thres >= 2
  {
    var low := Lowest(live);
    if enlist then live[|live| - 1 := low.(events := [])] + [Below(low, thres, low.events)]
    else live + [Below(low, thres, [])]
  }

  lemma {:induction false} SpawnedIsPut(live: Rungs, thres: nat)
    requires thres >= 2
    ensures var p, started := |live| - 1, live + [Below(Lowest(live), thres, [])];
      Put(started[p := started[p].(events := [])], p + 1, live[p].events) == Spawned(live, true, thres)
  {
    assert [] + Lowest(live).events == Lowest(live).events;
  }

  function Bumped(low: Rung): Rung { low.(cur := low.cur + low.width) }

  /** The live rungs once the dequeue bucket has been advanced. */
  function Advanced(live: Rungs, spawn: bool, thres: nat): Rungs
    requires thres >= 2
  {
    var n, low := |live| - 1, Lowest(live);
    if !spawn || |low.events| <= thres then live
    else if |live| < MAX_RUNGS then Spawned(live[n := Bumped(low)], true, thres)
    else live[n := Bumped(low)]
  }

  /** Advancing leaves events on the lowest rung, so there is nothing to retire. */
  lemma {:induction false} AdvancedOccupied(live: Rungs, spawn: bool, thres: nat)
    requires thres >= 2 && Lowest(live).events != []
    ensures Lowest(Advanced(live, spawn, thres)).events != []
    ensures DropEmpty(Advanced(live, spawn, thres)) == Advanced(live, spawn, thres)
  {
  }

  lemma {:induction false} BumpPlaced(s: RungState)
    requires Placed(s, 0)
    ensures Placed(s.(cur := s.cur + s.width), 1)
  {
    var c := s.current as real;
    assert (c + 1.0) * s.width == c * s.width + s.width;
  }

  lemma {:induction false} SameSpan(s: RungState, parent: RungState, thres: nat, s': RungState, parent': RungState)
    requires SpansTo(s, parent, thres)
    requires s'.start == s.start && s'.width == s.width && parent'.cur == parent.cur
    ensures SpansTo(s', parent', thres)
  {
  }

  /** RCur of the lowest rung is moved one bucket ahead. */
  lemma {:induction false} BumpStands(rs: seq<RungState>, lowest: nat, nbc: nat, thres: nat, s: RungState)
    requires Counts(rs, lowest, nbc, thres) && Standing(rs, lowest, 0, thres)
    requires s == rs[lowest].(cur := rs[lowest].cur + rs[lowest].width)
    ensures Counts(rs[lowest := s], lowest, nbc, thres)
    ensures Standing(rs[lowest := s], lowest, 1, thres)
    ensures var live := LiveView(rs, lowest);
      LiveView(rs[lowest := s], lowest) == live[lowest := Bumped(live[lowest])]
  {
    hide Placed, SpansTo;
    ReplaceCounts(rs, lowest, nbc, thres, lowest, s);
    BumpPlaced(rs[lowest]);
    if lowest > 0 {
      SameSpan(rs[lowest], rs[lowest - 1], thres, s, rs[lowest - 1]);
    }
  }

  /** The rung once its current bucket has been handed out: RCur past it, nothing left. */
  function HandedOut(s: RungState): RungState
    requires s.current < |s.lists|
  {
    SteppedOn(s).(cur := s.cur + s.width)
  }

  lemma {:induction false} HandOutCounts(rs: seq<RungState>, lowest: nat, nbc: nat, thres: nat, ahead: nat)
    requires Counts(rs, lowest, nbc, thres) && Standing(rs, lowest, ahead, thres) && rs[lowest].events > 0
    ensures nbc >= rs[lowest].events
    ensures var rs' := rs[lowest := HandedOut(rs[lowest])];
      && Counts(rs', lowest, nbc - rs[lowest].events, thres)
      && LiveView(rs', lowest) == LiveView(rs, lowest)[lowest := Passed(LiveView(rs, lowest)[lowest])]
  {
    StepCounts(rs, lowest, nbc, thres, lowest);
    var rs1 := rs[lowest := SteppedOn(rs[lowest])];
    ReplaceCounts(rs1, lowest, nbc - rs[lowest].events, thres, lowest, HandedOut(rs[lowest]));
    assert rs1[lowest := HandedOut(rs[lowest])] == rs[lowest := HandedOut(rs[lowest])];
  }

  lemma {:induction false} HandOutStands(rs: seq<RungState>, thres: nat)
    requires rs != [] && rs[0].current < |rs[0].lists| && Standing(rs, 0, 0, thres)
    ensures Standing(rs[0 := HandedOut(rs[0])], 0, 0, thres)
  {
    var c, w := rs[0].current as real, rs[0].width;
    assert (c + 1.0) * w == c * w + w;
  }

  /** Retiring the child of a spawn, or the rung itself, is what LadderSpec.Delist does. */
  lemma {:induction false} DelistIsHandOut(live: Rungs, thres: nat, adv: Rungs)
    requires thres >= 2 && |live| <= MAX_RUNGS && DropEmpty(live) == live && Lowest(live).events != []
    requires adv == Advanced(live, true, thres)
    ensures var n := |adv| - 1;
      Delist(live, thres) == (Lowest(adv).events, if n > 0 then adv[..n] else adv[n := Passed(Lowest(adv))])
  {
    var n, low := |live| - 1, Lowest(live);
    if |low.events| > thres && |live| < MAX_RUNGS {
      var bumped := live[n := Bumped(low)];
      assert Lowest(bumped) == Bumped(low) && Bumped(low).(events := []) == Passed(low);
      assert adv == bumped[n := Passed(low)] + [Below(Bumped(low), thres, low.events)];
      assert adv[..n + 1] == live[n := Passed(low)];
    } else if n > 0 {
      assert adv[..n] == live[..n];
    }
  }

  lemma {:induction false} DelistOfLive(rs: Rungs, thres: nat)
    ensures Delist(rs, thres) == Delist(DropEmpty(rs), thres)
  {
    DropEmptyTwice(rs);
  }

  lemma {:induction false} DropEmptyTwice(rs: Rungs)
    ensures DropEmpty(DropEmpty(rs)) == DropEmpty(rs)
  {
    if |rs| == 1 || Lowest(rs).events != [] {
    } else {
      DropEmptyTwice(rs[..|rs| - 1]);
    }
  }

  lemma {:induction false} PushBackIsPut(live: Rungs, thres: nat, list: seq<Entry>)
    requires thres >= 2
    ensures Put(Spawned(live, false, thres), |live|, list) == PushBack(live, thres, list)
  {
    assert [] + list == list;
  }

  /** The rung with its current bucket moved on to `c`, RCur in step. */
  function SteppedTo(s: RungState, c: nat): RungState {
    s.(current := c, cur := s.cur + (c as int - s.current) as real * s.width)
  }

  lemma {:induction false} SteppedToNext(s: RungState, c: nat)
    ensures SteppedTo(s, s.current) == s
    ensures SteppedTo(s, c).current == c && SteppedTo(s, c).lists == s.lists
    ensures var t := SteppedTo(s, c); SteppedTo(s, c + 1) == t.(current := c + 1, cur := t.cur + t.width)
  {
    var k := (c as int - s.current) as real;
    assert k * s.width + s.width == (k + 1.0) * s.width;
  }

  lemma {:induction false} EmptyLists(s: RungState)
    requires Filed(s) && s.events == 0
    ensures forall i :: 0 <= i < s.buckets ==> s.lists[i] == []
  {
  }

  lemma {:induction false} SamePlace(s: RungState, t: RungState, ahead: nat)
    requires Placed(s, ahead)
    requires t.cur == s.cur && t.start == s.start && t.width == s.width
    requires t.current == s.current && t.buckets == s.buckets && s.current + 1 < s.buckets
    ensures Placed(t, ahead)
  {
  }

  lemma {:induction false} WithKeepsStanding(rs: seq<RungState>, lowest: nat, thres: nat, n: nat, list: seq<Entry>)
    requires n <= lowest < |rs| && AllFiled(rs) && Standing(rs, lowest, 0, thres)
    requires rs[n].current + 1 < rs[n].buckets
    ensures Standing(rs[n := With(rs[n], list)], lowest, 0, thres)
  {
    var rs' := rs[n := With(rs[n], list)];
    SamePlace(rs[n], rs'[n], 0);
    forall r | 0 <= r <= lowest ensures Placed(rs'[r], 0) {
      assert r != n ==> rs'[r] == rs[r];
    }
    forall r | 0 < r <= lowest ensures SpansTo(rs'[r], rs'[r - 1], thres) {
      assert SpansTo(rs[r], rs[r - 1], thres);
      assert rs'[r].start == rs[r].start && rs'[r].width == rs[r].width && rs'[r - 1].cur == rs[r - 1].cur;
    }
  }

  lemma {:induction false} WithWith(s: RungState, a: seq<Entry>, b: seq<Entry>)
    requires s.current < |s.lists|
    ensures With(With(s, a), b) == With(s, a + b)
    ensures With(s, []) == s
    ensures var w := With(s, a);
      w.width == s.width && w.current == s.current && w.buckets == s.buckets && |w.lists| == |s.lists|
  {
    var list := s.lists[s.current];
    assert (list + a) + b == list + (a + b);
    assert list + [] == list;
    assert s.lists[s.current := list] == s.lists;
  }

  /** A rung that accepts a time its parent does not takes the event into its current bucket,
      and has room to step on. */
  lemma {:induction false} EventFits(s: RungState, t: real, n: nat, parent: RungState, thres: nat)
    requires thres >= 2 && Filed(s) && Placed(s, 0) && s.cur <= t
    requires if n == 0 then s.events > 0
             else s.buckets == thres && t < parent.cur && SpansTo(s, parent, thres)
    ensures Bucket(t, s.start, s.width, s.current, s.buckets) == s.current
    ensures s.current + 1 < s.buckets
  {
    BucketIsCurrent(t, s.start, s.width, s.current, s.buckets);
    if s.current > 1 {
      assert s.current as real * s.width == (s.current - 1) as real * s.width + s.width;
    }
    if n > 0 {
      RoomBelowParent(t, s.start, s.width, s.current, thres);
    }
  }
}
