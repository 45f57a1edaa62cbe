/**
 The fixed-capacity request registry ("hotel") the engine parks requests in.

 Room `i` is empty (`None`) or holds one occupant. The hotel's own room-selection
 policy and timers are not part of this model: a check-in is given the room the
 hotel picks (`pick`), which must be empty whenever some room is, so every empty
 room is a possible outcome and a check-in fails exactly when every room is taken.
 */
module Hotel {
  import opened Wrappers

  type Rooms<T> = seq<Option<T>>

  /** The error a check-in reports when no room is free. */
  datatype CheckInError = NoVacancy

  /** A hotel of `n` rooms, all empty. */
  function Vacant<T>(n: nat): (h: Rooms<T>)
    ensures |h| == n
    ensures forall i :: 0 <= i < n ==> h[i].None?
  {
    seq(n, _ => None)
  }

  predicate Full<T>(h: Rooms<T>) {
    forall i :: 0 <= i < |h| ==> h[i].Some?
  }

  /** `pick` is a room the hotel may hand out: an empty one, whenever one exists. */
  predicate ValidPick<T>(h: Rooms<T>, pick: nat) {
    Full(h) || (pick < |h| && h[pick].None?)
  }

  /** Park `x` in an empty room, or fail without queuing when the hotel is full. */
  function CheckIn<T>(h: Rooms<T>, x: T, pick: nat): (r: Result<(Rooms<T>, nat), CheckInError>)
    requires ValidPick(h, pick)
    ensures r.Err? <==> Full(h)
    ensures r.Ok? ==> r.value.1 < |h| && h[r.value.1].None?
    ensures r.Ok? ==> r.value.0 == h[r.value.1 := Some(x)]
  {
    if Full(h) then Err(NoVacancy) else Ok((h[pick := Some(x)], pick))
  }

  /** Empty a room; a room that is out of range or already empty is left alone. */
  function CheckOut<T>(h: Rooms<T>, room: int): (h': Rooms<T>)
    ensures |h'| == |h|
    ensures forall i :: 0 <= i < |h| && i != room ==> h'[i] == h[i]
    ensures 0 <= room < |h| ==> h'[room].None?
  {
    if 0 <= room < |h| then h[room := None] else h
  }

  /** Look at a room without changing it. */
  function Knock<T>(h: Rooms<T>, room: int): Option<T> {
    if 0 <= room < |h| then h[room] else None
  }

  /** The number of occupied rooms. */
  function Occupancy<T>(h: Rooms<T>): (n: nat)
    ensures n <= |h|
  {
    if |h| == 0 then 0 else (if h[0].Some? then 1 else 0) + Occupancy(h[1..])
  }

  /** The hotel is full exactly when every room is counted as occupied. */
  lemma {:induction false} OccupancyFull<T>(h: Rooms<T>)
    ensures Occupancy(h) == |h| <==> Full(h)
  {
    if |h| > 0 {
      OccupancyFull(h[1..]);
      if Full(h[1..]) && h[0].Some? {
        forall i | 0 <= i < |h| ensures h[i].Some? {
          if i > 0 { assert h[i] == h[1..][i - 1]; }
        }
      }
      if Full(h) {
        forall i | 0 <= i < |h[1..]| ensures h[1..][i].Some? {
          assert h[1..][i] == h[i + 1];
        }
      }
    }
  }

  /** Filling an empty room adds one occupant; emptying an occupied one removes one. */
  lemma {:induction false} OccupancyUpdate<T>(h: Rooms<T>, i: nat, v: Option<T>)
    requires i < |h|
    ensures Occupancy(h[i := v]) ==
            Occupancy(h) - (if h[i].Some? then 1 else 0) + (if v.Some? then 1 else 0)
  {
    if i > 0 {
      assert h[i := v][1..] == h[1..][i - 1 := v];
      OccupancyUpdate(h[1..], i - 1, v);
    } else {
      assert h[i := v][1..] == h[1..];
    }
  }

  /** A check-in succeeds exactly while fewer rooms are occupied than the hotel has,
      and each success takes one more room. */
  lemma CheckInCapacity<T>(h: Rooms<T>, x: T, pick: nat)
    requires ValidPick(h, pick)
    ensures CheckIn(h, x, pick).Ok? <==> Occupancy(h) < |h|
    ensures CheckIn(h, x, pick).Ok? ==> Occupancy(CheckIn(h, x, pick).value.0) == Occupancy(h) + 1
  {
    OccupancyFull(h);
    if CheckIn(h, x, pick).Ok? {
      OccupancyUpdate(h, CheckIn(h, x, pick).value.1, Some(x));
    }
  }

  /** Two rooms: A and B fill the hotel, C is turned away whatever room is asked
      for, and once A checks out C gets A's old room, the only one free. */
  lemma CapacityScenario<T>(a: T, b: T, c: T, pa: nat, pb: nat, pc: nat)
    requires pa < 2 && pb < 2 && pa != pb
    ensures CheckIn(Vacant<T>(2), a, pa) == Ok((Vacant<T>(2)[pa := Some(a)], pa))
    ensures CheckIn(Vacant<T>(2)[pa := Some(a)], b, pb) == Ok((Vacant<T>(2)[pa := Some(a)][pb := Some(b)], pb))
    ensures CheckIn(Vacant<T>(2)[pa := Some(a)][pb := Some(b)], c, pc) == Err(NoVacancy)
    ensures ValidPick(CheckOut(Vacant<T>(2)[pa := Some(a)][pb := Some(b)], pa), pc) ==> pc == pa
    ensures CheckIn(CheckOut(Vacant<T>(2)[pa := Some(a)][pb := Some(b)], pa), c, pa)
            == Ok((Vacant<T>(2)[pa := Some(a)][pb := Some(b)][pa := Some(c)], pa))
  {
    var h1 := Vacant<T>(2)[pa := Some(a)];
    var h2 := h1[pb := Some(b)];
    assert !Full(Vacant<T>(2)) by { assert Vacant<T>(2)[pa].None?; }
    assert !Full(h1) by { assert h1[pb].None?; }
    assert Full(h2) by {
      assert h2[pa].Some? && h2[pb].Some?;
    }
    var h3 := CheckOut(h2, pa);
    assert h3 == h2[pa := None];
    assert h3[pa].None? && h3[pb].Some?;
    assert !Full(h3);
    assert h3[pa := Some(c)] == h2[pa := Some(c)];
    assert ValidPick(h2, pc);
  }
}
