/** The simulator's event record (src/common/list/Entry.cc).
    Every handler copies an entry, changes the copy, and pushes the copy, so the record is a
    value here and each mutator returns the changed record. */
module Entries {

  /** The event kinds of events.hh; three of the administrative kinds are one constructor. */
  datatype EventType = LastArrival | Arrival | Departure | Ack | Ack1Hop | Leave | GenerateArrivals | Administrative

  /** Origin of an external arrival, and destination of a leaving job. */
  const EXTERNAL_EVENT: int := -1
  const ADMIN_EVENT: int := -2

  /** `gid` is unique per record, `id` is shared by all copies of one job. `path` and
      `arrivals` are the two history stacks, top of stack last. */
  datatype Entry = Entry(
    id: nat, gid: nat, delay: real, arrival: real, externalArrival: real,
    destination: int, origin: int, kind: EventType,
    path: seq<int>, arrivals: seq<real>)
  {
    /** The copy constructor: the job id is kept, the global id is fresh. */
    function Copy(uid: nat): Entry {
      this.(gid := uid + 1)
    }

    function PushHistory(node: int, time: real): Entry {
      this.(path := path + [node], arrivals := arrivals + [time])
    }

    function Delayed(extra: real, newArrival: real, newKind: EventType): Entry {
      this.(delay := delay + extra, arrival := newArrival, kind := newKind, origin := destination)
    }

    function Service(departure: real, newKind: EventType): Entry {
      this.(arrival := departure, kind := newKind, origin := destination)
    }

    function Depart(newDestination: int, newKind: EventType): Entry {
      this.(destination := newDestination, kind := newKind)
    }

    function Acknowledge(newOrigin: int, newDestination: int, newKind: EventType): Entry {
      this.(destination := newDestination, origin := newOrigin, kind := newKind)
    }

    function LeaveSystem(newDestination: int, newKind: EventType): Entry {
      this.(origin := destination, destination := newDestination, kind := newKind)
    }

    function PopHistory(): Entry
      requires path != [] && arrivals != []
    {
      this.(path := path[..|path| - 1], arrivals := arrivals[..|arrivals| - 1])
    }

    /** The reward of a round trip: minus the time since the job arrived, never positive. */
    function Reward(): (r: real)
      requires arrivals != []
    {
      var top := arrivals[|arrivals| - 1];
      if top - arrival < 0.0 then top - arrival else 0.0
    }
  }

  /** A newly generated entry: both ids are the next uid. */
  function NewEntry(uid: nat, delay: real, arrival: real, destination: int, origin: int, kind: EventType): Entry {
    Entry(uid + 1, uid + 1, delay, arrival, arrival, destination, origin, kind, [], [])
  }

  /** `operator<`: by arrival time, ties by global id. */
  predicate Less(a: Entry, b: Entry) {
    if a.arrival == b.arrival then a.gid < b.gid else a.arrival < b.arrival
  }
}
