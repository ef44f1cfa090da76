/** The ladder reduced to what it does: a stack of rungs, each holding one list of events.
    Class Ladder (Ladder.dfy) is proved to behave like this stack; all its events on a rung
    turn out to sit in the rung's current bucket. */
module LadderSpec {
  import opened Entries

  /** Largest finite double, the source's "no timestamp yet". */
  const DBL_MAX: real := 1.7976931348623157e308

  const MAX_RUNGS: nat := 5
  const DEFAULT_THRES: nat := 50

  datatype Option<+T> = None | Some(value: T)

  /** The exceptions the queue structures raise (QueueException). */
  datatype QueueError =
    | BadReset | RungNotFound | RungOutOfBounds | NoEpochInit | EpochExists | PastEventNotAllowed | QueueEmpty

  /** `cur` is the earliest time the rung still accepts, `width` its bucket width. */
  datatype Rung = Rung(cur: real, width: real, events: seq<Entry>)

  /** Rungs 0 to `m_lowestRung`; the last one is the lowest. */
  type Rungs = rs: seq<Rung> | rs != [] witness [Rung(DBL_MAX, 0.0, [])]

  function Lowest(rs: Rungs): Rung { rs[|rs| - 1] }

  function Size(rs: seq<Rung>): nat {
    if rs == [] then 0 else Size(rs[..|rs| - 1]) + |rs[|rs| - 1].events|
  }

  function Contents(rs: seq<Rung>): multiset<Entry> {
    if rs == [] then multiset{} else Contents(rs[..|rs| - 1]) + multiset(rs[|rs| - 1].events)
  }

  function BucketWidth(max: real, min: real, n: nat): real
    requires n > 0
  {
    if max == min then 1.0 else (max - min) / n as real
  }

  lemma {:induction false} WidthIsPositive(max: real, min: real, n: nat)
    requires min <= max && n > 0
    ensures BucketWidth(max, min, n) > 0.0
  {
    if max > min {
      var w := (max - min) / n as real;
      assert w * n as real == max - min;
    }
  }

  /** As many buckets as there are events span the times between the earliest and the latest. */
  lemma {:induction false} WidthsSpan(max: real, min: real, n: nat)
    requires n > 0
    ensures max != min ==> n as real * BucketWidth(max, min, n) == max - min
    ensures max == min ==> BucketWidth(max, min, n) == 1.0
  {
  }

  /** A new epoch: one rung holding the whole list. */
  function Epoch(list: seq<Entry>, max: real, min: real): Rungs
    requires list != []
  {
    [Rung(min, BucketWidth(max, min, |list|), list)]
  }

  /** The highest rung that accepts time `t`; the lowest rung takes what no other does. */
  function FindRung(rs: Rungs, t: real, n: nat): (r: nat)
    requires n < |rs|
    ensures n <= r < |rs|
    decreases |rs| - n
  {
    if t < rs[n].cur && n < |rs| - 1 then FindRung(rs, t, n + 1) else n
  }

  function Put(rs: Rungs, r: nat, list: seq<Entry>): Rungs
    requires r < |rs|
  {
    rs[r := rs[r].(events := rs[r].events + list)]
  }

  /** Inserting one event, or None where the source throws. */
  function Insert(rs: Rungs, e: Entry): Option<Rungs> {
    if Size(rs) == 0 || e.arrival < Lowest(rs).cur then None
    else Some(Put(rs, FindRung(rs, e.arrival, 0), [e]))
  }

  /** A fresh rung just below the lowest one, reaching one bucket width back. */
  function Below(r: Rung, thres: nat, events: seq<Entry>): Rung
    requires thres >= 2
  {
    Rung(r.cur - r.width, r.width / (thres - 1) as real, events)
  }

  /** Moving the overflowing Bottom onto a fresh rung; only possible below `MAX_RUNGS`. */
  function PushBack(rs: Rungs, thres: nat, list: seq<Entry>): Rungs
    requires thres >= 2
  {
    rs + [Below(Lowest(rs), thres, list)]
  }

  /** Retire empty rungs from the low end. */
  function DropEmpty(rs: Rungs): (r: Rungs) {
    if |rs| > 1 && Lowest(rs).events == [] then DropEmpty(rs[..|rs| - 1]) else rs
  }

  /** One bucket width further, with nothing left on the rung. */
  function Passed(r: Rung): Rung { Rung(r.cur + r.width, r.width, []) }

  /** Taking the next list of events out. More than `thres` events pass through a spawned
      rung, so their own rung survives; a rung that hands out directly is retired, unless it
      is the first. */
  function Delist(rs: Rungs, thres: nat): (seq<Entry>, Rungs) {
    var live := DropEmpty(rs);
    var low := Lowest(live);
    var rest := if (|low.events| > thres && |live| < MAX_RUNGS) || |live| == 1
                then live[|live| - 1 := Passed(low)] else live[..|live| - 1];
    (low.events, rest)
  }

  // ---- nothing is lost or duplicated -------------------------------------------------

  lemma {:induction false} SizeIsCardinality(rs: seq<Rung>)
    ensures Size(rs) == |Contents(rs)|
  {
    if rs == [] {
    } else {
      SizeIsCardinality(rs[..|rs| - 1]);
    }
  }

  lemma {:induction false} ReplaceEvents(rs: seq<Rung>, r: nat, rung: Rung)
    requires r < |rs|
    ensures Contents(rs[r := rung]) + multiset(rs[r].events) == Contents(rs) + multiset(rung.events)
    ensures Size(rs[r := rung]) + |rs[r].events| == Size(rs) + |rung.events|
  {
    var n, rs' := |rs| - 1, rs[r := rung];
    if r < n {
      ReplaceEvents(rs[..n], r, rung);
      assert rs'[..n] == rs[..n][r := rung];
      assert Contents(rs') == Contents(rs[..n][r := rung]) + multiset(rs[n].events);
      Rearrange(Contents(rs[..n][r := rung]), Contents(rs[..n]), multiset(rs[n].events),
                multiset(rs[r].events), multiset(rung.events));
    } else {
      assert rs'[..n] == rs[..n];
      assert Contents(rs') == Contents(rs[..n]) + multiset(rung.events);
    }
  }

  lemma {:induction false} Rearrange(a: multiset<Entry>, b: multiset<Entry>, c: multiset<Entry>,
      d: multiset<Entry>, e: multiset<Entry>)
    requires a + d == b + e
    ensures (a + c) + d == (b + c) + e
  {
    assert (a + c) + d == (a + d) + c;
  }

  lemma {:induction false} PutContents(rs: Rungs, r: nat, list: seq<Entry>)
    requires r < |rs|
    ensures Contents(Put(rs, r, list)) == Contents(rs) + multiset(list)
    ensures Size(Put(rs, r, list)) == Size(rs) + |list|
  {
    var rung := rs[r].(events := rs[r].events + list);
    ReplaceEvents(rs, r, rung);
    var old', new' := Contents(rs), Contents(rs[r := rung]);
    assert multiset(rung.events) == multiset(rs[r].events) + multiset(list);
    Cancel(new', old', multiset(rs[r].events), multiset(list));
  }

  lemma {:induction false} Cancel(a: multiset<Entry>, b: multiset<Entry>, c: multiset<Entry>, d: multiset<Entry>)
    requires a + c == b + (c + d)
    ensures a == b + d
  {
    assert a == (a + c) - c;
  }

  lemma {:induction false} PushBackContents(rs: Rungs, thres: nat, list: seq<Entry>)
    requires thres >= 2
    ensures Contents(PushBack(rs, thres, list)) == Contents(rs) + multiset(list)
    ensures Size(PushBack(rs, thres, list)) == Size(rs) + |list|
  {
    assert PushBack(rs, thres, list)[..|rs|] == rs;
  }

  lemma {:induction false} EpochContents(list: seq<Entry>, max: real, min: real)
    requires list != []
    ensures Contents(Epoch(list, max, min)) == multiset(list)
    ensures Size(Epoch(list, max, min)) == |list|
  {
    assert Epoch(list, max, min)[..0] == [];
  }

  lemma {:induction false} DropEmptyContents(rs: Rungs)
    ensures Contents(DropEmpty(rs)) == Contents(rs) && Size(DropEmpty(rs)) == Size(rs)
    ensures DropEmpty(rs) <= rs
    ensures Size(rs) > 0 ==> Lowest(DropEmpty(rs)).events != []
    ensures |DropEmpty(rs)| == 1 || Lowest(DropEmpty(rs)).events != []
  {
    if |rs| > 1 && Lowest(rs).events == [] {
      DropEmptyContents(rs[..|rs| - 1]);
    } else {
      if |rs| == 1 { assert Size(rs[..0]) == 0; }
    }
  }

  /** The rung that hands out a list stays if it is the first, or if the list is longer than the threshold
      and there is room for a rung below it; its next bucket is then the lowest. Otherwise it is
      given up. */
  lemma {:induction false} CrowdedRungStays(rs: Rungs, thres: nat)
    requires Size(rs) > 0
    ensures var (list, rest) := Delist(rs, thres); var live := DropEmpty(rs);
      && list == Lowest(live).events != []
      && (if |live| == 1 || (|list| > thres && |live| < MAX_RUNGS)
          then |rest| == |live| && Lowest(rest) == Rung(Lowest(live).cur + Lowest(live).width, Lowest(live).width, [])
          else |rest| == |live| - 1)
      && forall r :: 0 <= r < |live| - 1 ==> rest[r] == live[r]
  {
    DropEmptyContents(rs);
  }

  /** Delisting splits the contents, and from a non-empty ladder it is never empty. */
  lemma {:induction false} DelistContents(rs: Rungs, thres: nat)
    ensures var (list, rest) := Delist(rs, thres);
      && Contents(rs) == multiset(list) + Contents(rest)
      && Size(rs) == |list| + Size(rest)
      && (Size(rs) > 0 ==> list != [])
  {
    DropEmptyContents(rs);
    var live := DropEmpty(rs);
    var low := Lowest(live);
    ReplaceEvents(live, |live| - 1, Passed(low));
    assert Contents(live) == Contents(live[..|live| - 1]) + multiset(low.events);
  }
}
