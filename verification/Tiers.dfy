/** The outer tiers of the ladder queue, Top and Bottom, and the lists all tiers hand over. */
module Tiers {
  import opened Entries
  import opened EventLists
  import opened LadderSpec
  import opened QueueSpec

  /** An event list that tiers pass by reference: who receives one drains it. */
  class EntryList {
    var s: seq<Entry>

    constructor ()
      ensures s == []
    {
      s := [];
    }
  }

  class Top {
    var maxTS: real
    var minTS: real
    var topStart: real
    const fifo: EntryList

    /** The running extremes are those of the list. */
    ghost predicate Valid()
      reads this, fifo
    {
      maxTS == MaxTS(fifo.s) && minTS == MinTS(fifo.s)
    }

    constructor ()
      ensures Valid() && fresh(fifo)
      ensures fifo.s == [] && topStart == 0.0
    {
      maxTS, minTS, topStart := 0.0, DBL_MAX, 0.0;
      fifo := new EntryList();
    }

    method Push(e: Entry)
      requires Valid()
      modifies this, fifo
      ensures Valid()
      ensures fifo.s == old(fifo.s) + [e] && topStart == old(topStart)
    {
      if e.arrival > maxTS { maxTS := e.arrival; }
      if e.arrival < minTS { minTS := e.arrival; }
      fifo.s := fifo.s + [e];
    }

    /** Moves the start of Top past its events and hands out its own list. */
    method Delist() returns (list: EntryList)
      requires Valid() && fifo.s != []
      modifies this`topStart
      ensures list == fifo && topStart == NextTopStart(fifo.s)
    {
      var width := 0.0;
      if maxTS > minTS {
        width := maxTS - minTS;
        width := width / |fifo.s| as real;
      }
      topStart := maxTS + width;
      list := fifo;
    }

    /** Only an emptied Top may be reset. */
    method Reset() returns (error: Option<QueueError>)
      modifies this`maxTS, this`minTS
      ensures error == if fifo.s == [] then None else Some(BadReset)
      ensures error.None? ==> Valid()
      ensures error.Some? ==> maxTS == old(maxTS) && minTS == old(minTS)
    {
      if |fifo.s| > 0 {
        error := Some(BadReset);
      } else {
        maxTS, minTS := 0.0, DBL_MAX;
        error := None;
      }
    }
  }

  class Bottom {
    var lastEvent: real
    const list: EntryList

    constructor ()
      ensures fresh(list) && list.s == [] && lastEvent == 0.0
    {
      lastEvent := 0.0;
      list := new EntryList();
    }

    /** Insertion from the back; an event before the last dequeued one is refused. */
    method Push(e: Entry) returns (error: Option<QueueError>)
      modifies list
      ensures error == if e.arrival < lastEvent then Some(PastEventNotAllowed) else None
      ensures list.s == if error.Some? then old(list.s) else InsertByTime(old(list.s), e)
    {
      if e.arrival < lastEvent {
        return Some(PastEventNotAllowed);
      }
      var s := list.s;
      var inserted := false;
      if s == [] {
        list.s := s + [e];
        inserted := true;
      } else if s[|s| - 1].arrival <= e.arrival {
        list.s := s + [e];
        inserted := true;
      } else {
        var k := |s|;
        assert s[..k] == s && InsertByTime(s, e) + [] == InsertByTime(s, e);
        hide InsertByTime;
        while k > 0 && !inserted
          invariant 0 <= k <= |s|
          invariant !inserted ==> list.s == s && InsertByTime(s, e) == InsertByTime(s[..k], e) + s[k..]
          invariant inserted ==> list.s == InsertByTime(s, e)
          decreases k, !inserted
        {
          if s[k - 1].arrival <= e.arrival {
            InsertHere(s, e, k);
            list.s := s[..k] + [e] + s[k..];
            inserted := true;
          } else {
            InsertPast(s, e, k);
            k := k - 1;
          }
        }
      }
      if !inserted {
        list.s := [e] + s;
      }
      error := None;
    }

    /** Sorts the list it is given and merges it in, which drains it. */
    method PushList(other: EntryList)
      requires other != list
      modifies list, other
      ensures list.s == Merge(old(list.s), Sort(old(other.s)))
      ensures other.s == []
    {
      other.s := Sort(other.s);
      list.s := Merge(list.s, other.s);
      other.s := [];
    }

    method Front() returns (r: Option<Entry>)
      ensures r == if list.s == [] then None else Some(list.s[0])
    {
      if |list.s| == 0 {
        return None;
      }
      r := Some(list.s[0]);
    }

    /** Records the time of the event it drops. */
    method PopFront() returns (error: Option<QueueError>)
      modifies this`lastEvent, list
      ensures error == if old(list.s) == [] then Some(QueueEmpty) else None
      ensures error.None? ==> list.s == old(list.s)[1..] && lastEvent == old(list.s)[0].arrival
      ensures error.Some? ==> list.s == old(list.s) && lastEvent == old(lastEvent)
    {
      if |list.s| == 0 {
        return Some(QueueEmpty);
      }
      lastEvent := list.s[0].arrival;
      list.s := list.s[1..];
      error := None;
    }

    function GetMaxTS(): real
      reads this, list
    {
      if list.s != [] then list.s[|list.s| - 1].arrival else lastEvent
    }

    function GetMinTS(): real
      reads this, list
    {
      if list.s != [] then list.s[0].arrival else lastEvent
    }
  }
}
