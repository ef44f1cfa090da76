/** Operations on event lists: the intrusive list's `sort` and `merge`, and Bottom's
    insertion by arrival time. */
module EventLists {
  import opened Entries

  ghost predicate SortedByTime(s: seq<Entry>) {
    forall i, j :: 0 <= i < j < |s| ==> s[i].arrival <= s[j].arrival
  }

  /** Strictly increasing in (arrival, gid). */
  ghost predicate Lexicographic(s: seq<Entry>) {
    forall i, j :: 0 <= i < j < |s| ==> Less(s[i], s[j])
  }

  /** No element is smaller than one in front of it. */
  ghost predicate SortedByLess(s: seq<Entry>) {
    forall i, j :: 0 <= i < j < |s| ==> !Less(s[j], s[i])
  }

  /** Insertion from the back, behind every entry that does not arrive later. */
  function InsertByTime(s: seq<Entry>, e: Entry): (r: seq<Entry>) {
    if s == [] then [e]
    else if s[|s| - 1].arrival <= e.arrival then s + [e]
    else InsertByTime(s[..|s| - 1], e) + [s[|s| - 1]]
  }

  function InsertByLess(s: seq<Entry>, e: Entry): (r: seq<Entry>) {
    if s == [] then [e]
    else if !Less(e, s[|s| - 1]) then s + [e]
    else InsertByLess(s[..|s| - 1], e) + [s[|s| - 1]]
  }

  /** The list's stable `sort` by `operator<`. */
  function Sort(s: seq<Entry>): (r: seq<Entry>) {
    if s == [] then [] else InsertByLess(Sort(s[..|s| - 1]), s[|s| - 1])
  }

  /** The list's `merge` by `operator<`; on ties the receiver's entry goes first. */
  function Merge(xs: seq<Entry>, ys: seq<Entry>): (r: seq<Entry>) {
    if xs == [] then ys
    else if ys == [] then xs
    else if Less(ys[0], xs[0]) then [ys[0]] + Merge(xs, ys[1..])
    else [xs[0]] + Merge(xs[1..], ys)
  }

  lemma {:induction false} SnocMultiset(s: seq<Entry>)
    requires s != []
    ensures multiset(s) == multiset(s[..|s| - 1]) + multiset{s[|s| - 1]}
  {
    assert s == s[..|s| - 1] + [s[|s| - 1]];
  }

  /** One more step from the back, past a later entry. */
  lemma {:induction false} InsertPast(s: seq<Entry>, e: Entry, k: nat)
    requires 0 < k <= |s| && s[k - 1].arrival > e.arrival
    requires InsertByTime(s, e) == InsertByTime(s[..k], e) + s[k..]
    ensures InsertByTime(s, e) == InsertByTime(s[..k - 1], e) + s[k - 1..]
  {
    assert s[..k][..k - 1] == s[..k - 1];
    assert [s[k - 1]] + s[k..] == s[k - 1..];
    assert InsertByTime(s, e) == InsertByTime(s[..k - 1], e) + ([s[k - 1]] + s[k..]);
  }

  /** Behind an entry that is not later the insertion stops. */
  lemma {:induction false} InsertHere(s: seq<Entry>, e: Entry, k: nat)
    requires 0 < k <= |s| && s[k - 1].arrival <= e.arrival
    ensures InsertByTime(s[..k], e) == s[..k] + [e]
  {
  }

  lemma {:induction false} InsertByTimeMultiset(s: seq<Entry>, e: Entry)
    ensures multiset(InsertByTime(s, e)) == multiset(s) + multiset{e}
    ensures |InsertByTime(s, e)| == |s| + 1
  {
    if s == [] || s[|s| - 1].arrival <= e.arrival {
    } else {
      InsertByTimeMultiset(s[..|s| - 1], e);
      SnocMultiset(s);
    }
  }

  lemma {:induction false} InsertByTimeMember(s: seq<Entry>, e: Entry, x: Entry)
    requires x in InsertByTime(s, e)
    ensures x == e || x in s
  {
    InsertByTimeMultiset(s, e);
    assert x in multiset(InsertByTime(s, e));
  }

  lemma {:induction false} InsertByTimeSorted(s: seq<Entry>, e: Entry)
    requires SortedByTime(s)
    ensures SortedByTime(InsertByTime(s, e))
  {
    if s == [] || s[|s| - 1].arrival <= e.arrival {
    } else {
      var front := s[..|s| - 1];
      InsertByTimeSorted(front, e);
      forall x | x in InsertByTime(front, e)
        ensures x.arrival <= s[|s| - 1].arrival
      {
        InsertByTimeMember(front, e, x);
      }
    }
  }

  /** Inserting an entry whose gid exceeds all others keeps the list lexicographic. */
  lemma {:induction false} InsertByTimeFifo(s: seq<Entry>, e: Entry)
    requires Lexicographic(s)
    requires forall x :: x in s ==> x.gid < e.gid
    ensures Lexicographic(InsertByTime(s, e))
  {
    if s == [] || s[|s| - 1].arrival <= e.arrival {
    } else {
      var front, last := s[..|s| - 1], s[|s| - 1];
      InsertByTimeFifo(front, e);
      forall x | x in InsertByTime(front, e)
        ensures Less(x, last)
      {
        InsertByTimeMember(front, e, x);
      }
    }
  }

  /** An entry with a new gid keeps the gids distinct. */
  lemma {:induction false} InsertByTimeDistinct(s: seq<Entry>, e: Entry)
    requires DistinctGids(s) && forall x :: x in s ==> x.gid != e.gid
    ensures DistinctGids(InsertByTime(s, e))
  {
    if s == [] || s[|s| - 1].arrival <= e.arrival {
    } else {
      var front, last := s[..|s| - 1], s[|s| - 1];
      InsertByTimeDistinct(front, e);
      forall x | x in InsertByTime(front, e) ensures x.gid != last.gid {
        InsertByTimeMember(front, e, x);
      }
    }
  }

  lemma {:induction false} InsertByLessMultiset(s: seq<Entry>, e: Entry)
    ensures multiset(InsertByLess(s, e)) == multiset(s) + multiset{e}
    ensures |InsertByLess(s, e)| == |s| + 1
  {
    if s == [] || !Less(e, s[|s| - 1]) {
    } else {
      InsertByLessMultiset(s[..|s| - 1], e);
      SnocMultiset(s);
    }
  }

  /** A last element that nothing before it exceeds extends a sorted list. */
  lemma {:induction false} SnocSorted(s: seq<Entry>, e: Entry)
    requires SortedByLess(s) && (s != [] ==> !Less(e, s[|s| - 1]))
    ensures SortedByLess(s + [e])
  {
    forall i | 0 <= i < |s| ensures !Less(e, s[i]) {
      assert i < |s| - 1 ==> !Less(s[|s| - 1], s[i]);
    }
  }

  lemma {:induction false} InsertByLessSorted(s: seq<Entry>, e: Entry)
    requires SortedByLess(s)
    ensures SortedByLess(InsertByLess(s, e))
  {
    if s == [] || !Less(e, s[|s| - 1]) {
      SnocSorted(s, e);
    } else {
      var front, last := s[..|s| - 1], s[|s| - 1];
      InsertByLessSorted(front, e);
      var r := InsertByLess(front, e);
      InsertByLessMultiset(front, e);
      assert r[|r| - 1] in multiset(r);
      assert r[|r| - 1] == e || r[|r| - 1] in front;
      SnocSorted(r, last);
    }
  }

  /** `sort` returns a permutation that is sorted by `operator<`. */
  lemma {:induction false} SortCorrect(s: seq<Entry>)
    ensures multiset(Sort(s)) == multiset(s) && |Sort(s)| == |s|
    ensures SortedByLess(Sort(s)) && SortedByTime(Sort(s))
  {
    if s == [] {
    } else {
      SortCorrect(s[..|s| - 1]);
      SnocMultiset(s);
      InsertByLessMultiset(Sort(s[..|s| - 1]), s[|s| - 1]);
      InsertByLessSorted(Sort(s[..|s| - 1]), s[|s| - 1]);
    }
  }

  ghost predicate DistinctGids(s: seq<Entry>) {
    forall i, j :: 0 <= i < j < |s| ==> s[i].gid != s[j].gid
  }

  /** With distinct gids the sorted list is strictly lexicographic. */
  lemma {:induction false} SortLexicographic(s: seq<Entry>)
    requires DistinctGids(s)
    ensures Lexicographic(Sort(s)) && DistinctGids(Sort(s))
  {
    SortCorrect(s);
    var r := Sort(s);
    forall i, j | 0 <= i < j < |r|
      ensures r[i].gid != r[j].gid
    {
      if r[i].gid == r[j].gid {
        SameGidTwice(s, r, i, j);
      }
    }
  }

  lemma {:induction false} DistinctCount(s: seq<Entry>, x: Entry)
    requires DistinctGids(s)
    ensures multiset(s)[x] <= 1
  {
    if s == [] {
    } else {
      DistinctCount(s[..|s| - 1], x);
      SnocMultiset(s);
      assert x == s[|s| - 1] ==> x !in s[..|s| - 1];
    }
  }

  lemma {:induction false} TwiceCount(r: seq<Entry>, i: int, j: int)
    requires 0 <= i < j < |r| && r[i] == r[j]
    ensures multiset(r)[r[i]] >= 2
  {
    assert r == r[..j] + r[j..];
    assert r[i] in r[..j] && r[i] in r[j..];
    assert multiset(r) == multiset(r[..j]) + multiset(r[j..]);
  }

  lemma {:induction false} SameGidTwice(s: seq<Entry>, r: seq<Entry>, i: int, j: int)
    requires multiset(s) == multiset(r) && 0 <= i < j < |r|
    requires DistinctGids(s)
    ensures r[i].gid != r[j].gid
  {
    assert r[i] in multiset(s) && r[j] in multiset(s);
    if r[i] == r[j] {
      TwiceCount(r, i, j);
      DistinctCount(s, r[i]);
    }
  }

  lemma {:induction false} MergeMultiset(xs: seq<Entry>, ys: seq<Entry>)
    ensures multiset(Merge(xs, ys)) == multiset(xs) + multiset(ys)
    decreases |xs| + |ys|
  {
    if xs == [] || ys == [] {
    } else {
      assert xs == [xs[0]] + xs[1..] && ys == [ys[0]] + ys[1..];
      if Less(ys[0], xs[0]) {
        MergeMultiset(xs, ys[1..]);
      } else {
        MergeMultiset(xs[1..], ys);
      }
    }
  }

  lemma {:induction false} MergeSorted(xs: seq<Entry>, ys: seq<Entry>)
    requires SortedByTime(xs) && SortedByTime(ys)
    ensures SortedByTime(Merge(xs, ys))
    decreases |xs| + |ys|
  {
    if xs == [] || ys == [] {
    } else {
      if Less(ys[0], xs[0]) {
        MergeSorted(xs, ys[1..]);
        MergeBound(ys[0].arrival, xs, ys[1..]);
      } else {
        MergeSorted(xs[1..], ys);
        MergeBound(xs[0].arrival, xs[1..], ys);
      }
    }
  }

  lemma {:induction false} MergeBound(t: real, xs: seq<Entry>, ys: seq<Entry>)
    requires forall x :: x in xs ==> t <= x.arrival
    requires forall y :: y in ys ==> t <= y.arrival
    ensures forall z :: z in Merge(xs, ys) ==> t <= z.arrival
  {
    MergeMultiset(xs, ys);
    forall z | z in Merge(xs, ys)
      ensures t <= z.arrival
    {
      assert z in multiset(Merge(xs, ys));
    }
  }
}
