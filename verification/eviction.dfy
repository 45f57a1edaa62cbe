/**
 The hotel's eviction callback: one room's timer has fired. The hotel has
 already emptied the room and hands the callback its former occupant; the
 callback ages the request's timeout and then either checks it back in, issues
 the fetch its awaited key now allows, or gives up and tells whoever waits.
 */
module Eviction {
  import opened Wrappers
  import opened Hotel
  import opened Messages
  import opened Requests
  import opened Engine

  /** The one notice the timeout path gives: an error message to the peer when
      the request serves a remote room, otherwise the first callback that is set,
      in the order operation, modex, spawn, lookup, with the timeout status and
      no payload. The peer's error message carries `rc`. */
  function TimeoutNotice(id: ReqId, req: Request, rc: Status): seq<Effect> {
    if req.remoteRoom >= 0 then [Send(req.proxy, ErrorMessage(rc, req.target, req.remoteRoom))]
    else if req.cbs.op then [Notify(id, OpCb, ErrTimeout, [])]
    else if req.cbs.mdx then [Notify(id, MdxCb, ErrTimeout, [])]
    else if req.cbs.spawn then [Notify(id, SpawnCb, ErrTimeout, [])]
    else if req.cbs.lookup then [Notify(id, LookupCb, ErrTimeout, [])]
    else []
  }

  /** The notice reaches exactly one party when anyone can be told: the peer if
      there is a remote room, else the highest-priority callback that is set;
      nobody when neither exists. */
  lemma NoticeChoice(id: ReqId, req: Request, rc: Status)
    ensures |TimeoutNotice(id, req, rc)| <= 1
    ensures req.remoteRoom >= 0 ==>
              TimeoutNotice(id, req, rc) == [Send(req.proxy, ErrorMessage(rc, req.target, req.remoteRoom))]
    ensures req.remoteRoom < 0 ==>
              (TimeoutNotice(id, req, rc) == [] <==> forall c :: !IsSet(req.cbs, c))
    ensures req.remoteRoom < 0 && TimeoutNotice(id, req, rc) != [] ==>
              var e := TimeoutNotice(id, req, rc)[0];
              && e.Notify? && e.id == id && e.status == ErrTimeout && e.payload == []
              && IsSet(req.cbs, e.cb)
              && forall c :: IsSet(req.cbs, c) ==> Priority(e.cb) <= Priority(c)
  {
    if req.remoteRoom < 0 && TimeoutNotice(id, req, rc) == [] {
      forall c ensures !IsSet(req.cbs, c) {
        match c
        case OpCb =>
        case MdxCb =>
        case SpawnCb =>
        case LookupCb =>
      }
    }
    if forall c :: !IsSet(req.cbs, c) {
      assert !IsSet(req.cbs, OpCb) && !IsSet(req.cbs, MdxCb);
      assert !IsSet(req.cbs, SpawnCb) && !IsSet(req.cbs, LookupCb);
    }
  }

  /** The terminal path: notify, then release the request. */
  function Expire(s: State, id: ReqId, req: Request, rc: Status): Step {
    Step(s.(records := s.records - {id}), TimeoutNotice(id, req, rc) + [Release(id)])
  }

  /** The eviction of room `n`. `keyFound` is the answer of the synchronous
      lookup for the request's awaited key, `fetchStarts` whether the
      asynchronous fetch could be started, `pick` the room a check-in gets. */
  function Evict(s: State, n: nat, keyFound: bool, fetchStarts: bool, pick: nat): (r: Step)
    requires n < |s.rooms| && s.rooms[n].Some? && s.rooms[n].value in s.records
    requires ValidPick(s.rooms[n := None], pick)
    // only the evicted request's record, room `n` and the picked room can change
    ensures r.state.(rooms := s.rooms, records := s.records) == s
    ensures |r.state.rooms| == |s.rooms|
    ensures forall i :: 0 <= i < |s.rooms| && i != n && i != pick ==> r.state.rooms[i] == s.rooms[i]
    ensures forall x :: x != s.rooms[n].value ==>
              (x in r.state.records <==> x in s.records) &&
              (x in s.records ==> r.state.records[x] == s.records[x])
    // the evicted request is either still live or released, never both
    ensures s.rooms[n].value in r.state.records <==> Release(s.rooms[n].value) !in r.effects
    // the room it left is empty unless it was checked back into that same room
    ensures r.state.rooms[n] == None || (pick == n && r.state.rooms[n] == s.rooms[n])
  {
    var id := s.rooms[n].value;
    var rooms := s.rooms[n := None];
    var req := s.records[id].(timeout := AgeTimeout(s.records[id].timeout, s.unit));
    if req.timeout <= 0 then Expire(s.(rooms := rooms), id, req, ErrTimeout)
    else
      var probe := if req.key.Some? then [Probe(req.target, req.key.value, req.info)] else [];
      var checkin := CheckIn(rooms, id, pick);
      var placed := if checkin.Ok? then checkin.value.0 else rooms;
      var room := if checkin.Ok? then Some(checkin.value.1) else None;
      if req.key.Some? && keyFound then
        // the check-in's result is not looked at on this path
        if fetchStarts then
          Step(s.(rooms := placed, records := s.records[id := req.(room := room)]),
               probe + [Fetch(id, req.target)])
        else
          Step(s.(rooms := CheckOutRoom(placed, room), records := s.records - {id}),
               probe + [Send(req.proxy, ErrorMessage(ErrTimeout, req.target, req.remoteRoom)), Release(id)])
      else if checkin.Ok? then
        Step(s.(rooms := placed, records := s.records[id := req.(room := room)]), probe)
      else
        // fall through to the terminal path with the check-in's status
        var e := Expire(s.(rooms := rooms), id, req, ErrOutOfResource);
        Step(e.state, probe + e.effects)
  }

  /** The occupant of room `n`. */
  function Occupant(s: State, n: nat): ReqId
    requires n < |s.rooms| && s.rooms[n].Some?
  {
    s.rooms[n].value
  }

  /** An eviction that leaves the timeout non-positive is terminal: the room
      stays empty, the request is released, and the last effect is its release,
      preceded by the notice alone. */
  lemma EvictExpired(s: State, n: nat, keyFound: bool, fetchStarts: bool, pick: nat)
    requires WF(s) && n < |s.rooms| && s.rooms[n].Some?
    requires ValidPick(s.rooms[n := None], pick)
    requires AgeTimeout(s.records[Occupant(s, n)].timeout, s.unit) <= 0
    ensures var id := Occupant(s, n);
            var req := s.records[id];
            var r := Evict(s, n, keyFound, fetchStarts, pick);
            && r.state.rooms == s.rooms[n := None]
            && r.state.records == s.records - {id}
            && r.effects == TimeoutNotice(id, req.(timeout := AgeTimeout(req.timeout, s.unit)), ErrTimeout) + [Release(id)]
            && WF(r.state)
  {
  }

  /** An eviction that leaves time on the clock, for a request with no awaited
      key or whose key is still absent, checks the request back in: the check-in
      cannot fail, since the request's own room has just been emptied. Nothing
      is sent, fetched or notified; only the request's timeout and room change. */
  lemma EvictParked(s: State, n: nat, keyFound: bool, fetchStarts: bool, pick: nat)
    requires WF(s) && n < |s.rooms| && s.rooms[n].Some?
    requires ValidPick(s.rooms[n := None], pick)
    requires AgeTimeout(s.records[Occupant(s, n)].timeout, s.unit) > 0
    requires s.records[Occupant(s, n)].key.None? || !keyFound
    ensures var id := Occupant(s, n);
            var req := s.records[id];
            var r := Evict(s, n, keyFound, fetchStarts, pick);
            && pick < |s.rooms| && (pick == n || s.rooms[pick].None?)
            && r.state.rooms == s.rooms[n := None][pick := Some(id)]
            && r.state.records == s.records[id := req.(timeout := AgeTimeout(req.timeout, s.unit), room := Some(pick))]
            && r.effects == (if req.key.Some? then [Probe(req.target, req.key.value, req.info)] else [])
            && WF(r.state)
  {
    assert s.rooms[n := None][n].None?;
    EvictWF(s, n, keyFound, fetchStarts, pick);
  }

  /** An eviction with time left for a request whose awaited key has arrived
      re-parks it and starts the fetch; if the fetch cannot start, the peer is
      sent an error carrying the timeout status, the room is emptied again and
      the request released. */
  lemma EvictKeyArrived(s: State, n: nat, fetchStarts: bool, pick: nat)
    requires WF(s) && n < |s.rooms| && s.rooms[n].Some?
    requires ValidPick(s.rooms[n := None], pick)
    requires AgeTimeout(s.records[Occupant(s, n)].timeout, s.unit) > 0
    requires s.records[Occupant(s, n)].key.Some?
    ensures var id := Occupant(s, n);
            var req := s.records[id].(timeout := AgeTimeout(s.records[id].timeout, s.unit));
            var r := Evict(s, n, true, fetchStarts, pick);
            var probe := Probe(req.target, req.key.value, req.info);
            && pick < |s.rooms|
            && (fetchStarts ==>
                  && r.state.rooms == s.rooms[n := None][pick := Some(id)]
                  && r.state.records == s.records[id := req.(room := Some(pick))]
                  && r.effects == [probe, Fetch(id, req.target)])
            && (!fetchStarts ==>
                  && r.state.rooms == s.rooms[n := None]
                  && r.state.records == s.records - {id}
                  && r.effects == [probe, Send(req.proxy, ErrorMessage(ErrTimeout, req.target, req.remoteRoom)), Release(id)])
            && WF(r.state)
  {
    assert s.rooms[n := None][n].None?;
    var h := s.rooms[n := None];
    assert pick < |h| && h[pick].None?;
    assert h[pick := Some(Occupant(s, n))][pick := None] == h;
    EvictWF(s, n, true, fetchStarts, pick);
  }

  /** Every eviction keeps the engine's invariant. */
  lemma EvictWF(s: State, n: nat, keyFound: bool, fetchStarts: bool, pick: nat)
    requires WF(s) && n < |s.rooms| && s.rooms[n].Some?
    requires ValidPick(s.rooms[n := None], pick)
    ensures WF(Evict(s, n, keyFound, fetchStarts, pick).state)
  {
    var id := Occupant(s, n);
    var h := s.rooms[n := None];
    var s0 := s.(rooms := h, records := s.records - {id});
    CheckOutWF(s, n);
    assert h[n].None?;
    assert pick < |h| && h[pick].None?;
    var req := s.records[id].(timeout := AgeTimeout(s.records[id].timeout, s.unit), room := Some(pick));
    ParkWF(s0, id, req, pick);
    assert (s.records - {id})[id := req] == s.records[id := req];
    assert h[pick := Some(id)][pick := None] == h;
  }

  /** A key-found eviction whose fetch starts leaves the request parked with its
      key: the next eviction that leaves it time and finds the key probes again
      and starts a second fetch for the same request. */
  lemma FetchRepeats(s: State, n: nat, pick: nat, n2: nat, pick2: nat)
    requires WF(s) && n < |s.rooms| && s.rooms[n].Some?
    requires ValidPick(s.rooms[n := None], pick)
    requires s.records[Occupant(s, n)].key.Some?
    requires AgeTimeout(s.records[Occupant(s, n)].timeout, s.unit) > 0
    requires var s1 := Evict(s, n, true, true, pick).state;
             && n2 == pick && ValidPick(s1.rooms[n2 := None], pick2)
             && AgeTimeout(s1.records[Occupant(s, n)].timeout, s.unit) > 0
    ensures var id := Occupant(s, n);
            var s1 := Evict(s, n, true, true, pick).state;
            && s1.rooms[n2] == Some(id) && s1.records[id].key == s.records[id].key
            && Fetch(id, s.records[id].target) in Evict(s, n, true, true, pick).effects
            && Fetch(id, s.records[id].target) in Evict(s1, n2, true, true, pick2).effects
  {
  }

  /** A request that nobody waits on (no remote room, no callbacks) and whose
      timeout is one unit is released silently on its first eviction. */
  lemma SilentTimeout(s: State, n: nat, keyFound: bool, fetchStarts: bool, pick: nat)
    requires WF(s) && n < |s.rooms| && s.rooms[n].Some? && s.unit > 0
    requires ValidPick(s.rooms[n := None], pick)
    requires var req := s.records[Occupant(s, n)];
             req.remoteRoom < 0 && req.cbs == NoCallbacks && req.timeout == s.unit
    ensures Evict(s, n, keyFound, fetchStarts, pick).effects == [Release(Occupant(s, n))]
  {
    var req := s.records[Occupant(s, n)];
    NoticeChoice(Occupant(s, n), req.(timeout := AgeTimeout(req.timeout, s.unit)), ErrTimeout);
  }
}
