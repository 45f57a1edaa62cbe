/**
 The state of the direct-modex engine, the effects its handlers produce, the
 invariant every handler keeps, and server initialisation (the hotel size).

 The engine is single-threaded: every handler is a pure function from a state
 (and the answers of the collaborators it consults) to a new state and the
 ordered list of effects it caused.
 */
module Engine {
  import opened Wrappers
  import opened Hotel
  import opened Messages
  import opened Requests

  /** A request's identity; the model's stand-in for the record's address. */
  type ReqId = nat

  /** PRRTE_PMIX_SERVER_MIN_ROOMS: the least hotel size chosen by default. */
  const MinRooms: nat := 4096

  /** The engine's globals: the initialised flag, the configured room count,
      the timeout unit, the hotel, the live request records, and the next
      identity to hand to a new record. */
  datatype State = State(
    initialized: bool,
    numRooms: int,
    unit: int,
    rooms: Rooms<ReqId>,
    records: map<ReqId, Request>,
    next: nat)

  /** What a handler does besides changing the state, in order. */
  datatype Effect =
      /** a message sent on the direct-modex response channel */
    | Send(dest: Name, msg: seq<Field>)
      /** an asynchronous fetch of `target`'s data started, answering for `id` */
    | Fetch(id: ReqId, target: Proc)
      /** a synchronous lookup of `key` for `target`, passing these directives */
    | Probe(target: Proc, key: string, info: Directives)
      /** a completion callback of request `id` invoked */
    | Notify(id: ReqId, cb: Callback, status: Status, payload: seq<byte>)
      /** the last reference to request `id` dropped */
    | Release(id: ReqId)
      /** a diagnostic read of request `id`'s key and room fields */
    | Trace(id: ReqId)
      /** one more reference taken to the shared response payload */
    | RetainPayload
      /** one reference to the shared response payload dropped */
    | ReleasePayload

  datatype Step = Step(state: State, effects: seq<Effect>)

  /** The engine's invariant: a room's occupant is live and knows its room;
      a live request that has a room is that room's occupant; identities below
      `next` are the only ones in use. It follows that no request is in two rooms. */
  predicate WF(s: State) {
    && (forall i :: 0 <= i < |s.rooms| && s.rooms[i].Some? ==>
          s.rooms[i].value in s.records && s.records[s.rooms[i].value].room == Some(i))
    && (forall id :: id in s.records && s.records[id].room.Some? ==>
          s.records[id].room.value < |s.rooms| && s.rooms[s.records[id].room.value] == Some(id))
    && (forall id :: id in s.records ==> id < s.next)
  }

  /** The number of callback invocations in an effect list. */
  function Notices(e: seq<Effect>): nat {
    if |e| == 0 then 0 else (if e[0].Notify? then 1 else 0) + Notices(e[1..])
  }

  /** Counting notices distributes over concatenation. */
  lemma {:induction false} NoticesAppend(a: seq<Effect>, b: seq<Effect>)
    ensures Notices(a + b) == Notices(a) + Notices(b)
  {
    if |a| > 0 {
      assert (a + b)[1..] == a[1..] + b;
      NoticesAppend(a[1..], b);
    } else {
      assert a + b == b;
    }
  }

  /** How often `x` occurs in an effect list. */
  function Occurrences(e: seq<Effect>, x: Effect): nat {
    if |e| == 0 then 0 else (if e[0] == x then 1 else 0) + Occurrences(e[1..], x)
  }

  /** Counting occurrences distributes over concatenation. */
  lemma {:induction false} OccurrencesAppend(a: seq<Effect>, b: seq<Effect>, x: Effect)
    ensures Occurrences(a + b, x) == Occurrences(a, x) + Occurrences(b, x)
  {
    if |a| > 0 {
      assert (a + b)[1..] == a[1..] + b;
      OccurrencesAppend(a[1..], b, x);
    } else {
      assert a + b == b;
    }
  }

  /** The counts of a one-element effect list. */
  lemma CountOne(a: Effect, x: Effect)
    ensures Occurrences([a], x) == (if a == x then 1 else 0)
    ensures Notices([a]) == (if a.Notify? then 1 else 0)
  {
    assert [a][1..] == [];
  }

  /** The counts of a three-element effect list. */
  lemma CountThree(a: Effect, b: Effect, c: Effect, x: Effect)
    ensures Occurrences([a, b, c], x) ==
            (if a == x then 1 else 0) + (if b == x then 1 else 0) + (if c == x then 1 else 0)
    ensures Notices([a, b, c]) ==
            (if a.Notify? then 1 else 0) + (if b.Notify? then 1 else 0) + (if c.Notify? then 1 else 0)
  {
    assert [a, b, c][1..] == [b, c];
    assert [b, c][1..] == [c];
    assert [c][1..] == [];
    assert Occurrences([c], x) == (if c == x then 1 else 0);
    assert Occurrences([b, c], x) == (if b == x then 1 else 0) + Occurrences([c], x);
    assert Notices([c]) == (if c.Notify? then 1 else 0);
    assert Notices([b, c]) == (if b.Notify? then 1 else 0) + Notices([c]);
  }

  /** Under the invariant no request occupies two rooms. */
  lemma OneRoomEach(s: State, i: nat, j: nat)
    requires WF(s)
    requires i < |s.rooms| && j < |s.rooms| && s.rooms[i].Some? && s.rooms[i] == s.rooms[j]
    ensures i == j
  {
  }

  /** A request that is in no room. */
  predicate Unhoused(s: State, id: ReqId) {
    forall i :: 0 <= i < |s.rooms| ==> s.rooms[i] != Some(id)
  }

  /** Checking out an occupied room and releasing its occupant keeps the invariant. */
  lemma CheckOutWF(s: State, k: nat)
    requires WF(s) && k < |s.rooms| && s.rooms[k].Some?
    ensures var id := s.rooms[k].value;
            var s' := s.(rooms := s.rooms[k := None], records := s.records - {id});
            WF(s') && Unhoused(s', id)
  {
    var id := s.rooms[k].value;
    var s' := s.(rooms := s.rooms[k := None], records := s.records - {id});
    forall i | 0 <= i < |s'.rooms| && s'.rooms[i].Some?
      ensures s'.rooms[i].value in s'.records && s'.records[s'.rooms[i].value].room == Some(i)
    {
      if s'.rooms[i].value == id { OneRoomEach(s, i, k); }
    }
  }

  /** Releasing a request that is in no room keeps the invariant. */
  lemma DropWF(s: State, id: ReqId)
    requires WF(s) && Unhoused(s, id)
    ensures WF(s.(records := s.records - {id}))
  {
  }

  /** Parking a request that is in no room, in an empty room it is told about,
      keeps the invariant. */
  lemma ParkWF(s: State, id: ReqId, req: Request, pick: nat)
    requires WF(s) && Unhoused(s, id) && id < s.next
    requires pick < |s.rooms| && s.rooms[pick].None? && req.room == Some(pick)
    ensures WF(s.(rooms := s.rooms[pick := Some(id)], records := s.records[id := req]))
  {
    var s' := s.(rooms := s.rooms[pick := Some(id)], records := s.records[id := req]);
    forall x | x in s'.records && s'.records[x].room.Some?
      ensures s'.records[x].room.value < |s'.rooms| && s'.rooms[s'.records[x].room.value] == Some(x)
    {
      if x != id {
        assert s.records[x].room.value != pick;
      }
    }
  }

  /** Empty the room a record was given, if it was given one. */
  function CheckOutRoom(h: Rooms<ReqId>, room: Option<nat>): (h': Rooms<ReqId>)
    ensures |h'| == |h|
    ensures forall k: nat :: k < |h| ==> h'[k] == (if room == Some(k) then None else h[k])
  {
    match room
    case None => h
    case Some(n) => CheckOut(h, n)
  }

  /** The hotel size initialisation uses: a configured count of -1 means twice
      the number of daemons, but never fewer than MinRooms; any other count is kept. */
  function RoomCount(configured: int, numDaemons: nat): (n: int)
    ensures configured == -1 ==>
              n >= MinRooms && n >= 2 * numDaemons && (n == MinRooms || n == 2 * numDaemons)
    ensures configured != -1 ==> n == configured
  {
    if configured == -1 then (if 2 * numDaemons < MinRooms then MinRooms else 2 * numDaemons)
    else configured
  }

  /** Server initialisation, up to the hotel: a second call returns success and
      changes nothing; the first sets the initialised flag before anything can
      fail, fixes the room count, constructs an empty hotel and then builds its
      rooms. `hotelRc` is the hotel's answer to being built (it cannot build a
      negative size) and `restRc` the status of the remaining, foreign, set-up
      steps. A failed build leaves the constructed hotel with no rooms. */
  function Init(s: State, numDaemons: nat, hotelRc: Status, restRc: Status): (r: (State, Status))
    requires !s.initialized && hotelRc == Success ==> RoomCount(s.numRooms, numDaemons) >= 0
    ensures r.0.initialized
    ensures s.initialized ==> r == (s, Success)
    ensures !s.initialized ==>
              && WF(r.0) && r.0.records == map[] && Occupancy(r.0.rooms) == 0
              && r.0.numRooms == RoomCount(s.numRooms, numDaemons)
              && r.0.unit == s.unit && r.0.next == s.next
    ensures !s.initialized && hotelRc != Success ==> r.1 == hotelRc && r.0.rooms == []
    ensures !s.initialized && hotelRc == Success ==>
              r.1 == restRc && |r.0.rooms| == RoomCount(s.numRooms, numDaemons)
  {
    if s.initialized then (s, Success)
    else
      var n := RoomCount(s.numRooms, numDaemons);
      var s1 := s.(initialized := true, numRooms := n, rooms := [], records := map[]);
      if hotelRc != Success then (s1, hotelRc)
      else VacantOccupancy(n); (s1.(rooms := Vacant(n)), restRc)
  }

  /** After a first, successful initialisation the hotel has the default or the
      configured number of rooms, all empty, and the invariant holds. */
  lemma InitSizesHotel(s: State, numDaemons: nat, restRc: Status)
    requires !s.initialized && RoomCount(s.numRooms, numDaemons) >= 0
    ensures var (s', rc) := Init(s, numDaemons, Success, restRc);
            && s'.initialized && rc == restRc && WF(s')
            && (s.numRooms == -1 ==> |s'.rooms| >= MinRooms && |s'.rooms| >= 2 * numDaemons
                                     && (|s'.rooms| == MinRooms || |s'.rooms| == 2 * numDaemons))
            && (s.numRooms != -1 ==> |s'.rooms| == s.numRooms)
            && s'.numRooms == |s'.rooms|
            && Occupancy(s'.rooms) == 0
  {
  }

  lemma {:induction false} VacantOccupancy(n: nat)
    ensures Occupancy(Vacant<ReqId>(n)) == 0
  {
    if n > 0 {
      assert Vacant<ReqId>(n)[1..] == Vacant<ReqId>(n - 1);
      VacantOccupancy(n - 1);
    }
  }

  /** Once the initialised flag is set, initialising again changes nothing and
      reports success, even when the first attempt failed to build the hotel. */
  lemma InitIdempotent(s: State, d1: nat, h1: Status, r1: Status, d2: nat, h2: Status, r2: Status)
    requires !s.initialized && h1 == Success ==> RoomCount(s.numRooms, d1) >= 0
    ensures Init(s, d1, h1, r1).0.initialized
    ensures Init(Init(s, d1, h1, r1).0, d2, h2, r2) == (Init(s, d1, h1, r1).0, Success)
    ensures !s.initialized && h1 != Success ==>
              Init(s, d1, h1, r1).1 == h1 && Init(s, d1, h1, r1).0.rooms == []
  {
  }
}
