/**
 The handler for a peer daemon's direct-modex request: decode the query, then
 either park it until the target's job is known, refuse it, park it until an
 awaited key appears, or check it in and start the fetch of the target's data.
 */
module Inbound {
  import opened Wrappers
  import opened Hotel
  import opened Messages
  import opened Requests
  import opened Engine
  import opened Eviction

  /** The answers of the collaborators the handler consults: whether the
      target's job is known yet, whether the job has the target process and it
      is local, whether the awaited key is already present, and whether the
      asynchronous fetch could be started. */
  datatype Oracle = Oracle(jobKnown: bool, procFound: bool, procLocal: bool, keyPresent: bool, fetchStarts: bool)

  /** The directive array of a decoded query: none when it has no entries. */
  function DirectivesOf(infos: seq<Info>): Directives {
    if |infos| == 0 then NoInfo else Live(infos)
  }

  /** `t` differs from `s` at most in request `id`'s record and in room `pick`. */
  ghost predicate Confined(s: State, t: State, id: ReqId, pick: nat) {
    && |t.rooms| == |s.rooms|
    && (forall i :: 0 <= i < |s.rooms| && i != pick ==> t.rooms[i] == s.rooms[i])
    && (forall x :: x != id ==>
          (x in t.records <==> x in s.records) && (x in s.records ==> t.records[x] == s.records[x]))
  }

  /** The record a query gets: the sender as proxy, the query's target, room and
      directives, and the adjusted timeout; no key, no room yet. */
  function Base(s: State, sender: Name, q: Query, adjusted: int): Request {
    Fresh(s.unit, q.target).(proxy := sender, info := DirectivesOf(q.infos), remoteRoom := q.room, timeout := adjusted)
  }

  /** What the peer is told when the request cannot be checked in. */
  function Refusal(id: ReqId, sender: Name, q: Query): seq<Effect> {
    [Release(id), Send(sender, ErrorMessage(ErrOutOfResource, q.target, q.room))]
  }

  /** Check request `id` in at `pick`, or, when every room is taken, change
      nothing and produce the `refusal` the caller supplies. A successful
      check-in fills exactly one more room, with `id`, records which room `id`
      got, and leaves every other room and record as it was. */
  function Admit(s: State, id: ReqId, req: Request, pick: nat, refusal: seq<Effect>): (r: Step)
    requires ValidPick(s.rooms, pick)
    ensures Full(s.rooms) ==> r.state == s && r.effects == refusal
    ensures !Full(s.rooms) ==>
              && r.effects == [] && r.state.next == s.next
              && |r.state.rooms| == |s.rooms| && pick < |s.rooms| && r.state.rooms[pick] == Some(id)
              && Occupancy(r.state.rooms) == Occupancy(s.rooms) + 1
              && (forall i :: 0 <= i < |s.rooms| && i != pick ==> r.state.rooms[i] == s.rooms[i])
              && id in r.state.records && r.state.records[id] == req.(room := Some(pick))
              && (forall x :: x != id ==>
                    (x in r.state.records <==> x in s.records) &&
                    (x in s.records ==> r.state.records[x] == s.records[x]))
  {
    CheckInCapacity(s.rooms, id, pick);
    match CheckIn(s.rooms, id, pick)
    case Err(_) => Step(s, refusal)
    case Ok((h, room)) => Step(s.(rooms := h, records := s.records[id := req.(room := Some(room))]), [])
  }

  /** A request whose awaited key is absent: look the key up, then park the
      request with the key and with its directives freed while the record still
      points at them; the record is read once more at the end, also after a
      failed check-in has released it. */
  function AwaitKey(s: State, id: ReqId, sender: Name, q: Query, base: Request, key: string, pick: nat): (r: Step)
    requires ValidPick(s.rooms, pick)
    ensures r.state.next == s.next && Confined(s, r.state, id, pick)
    ensures id !in s.records ==> (id in r.state.records <==> Release(id) !in r.effects)
  {
    var a := Admit(s, id, base.(key := Some(key), info := Freed(|q.infos|)), pick, Refusal(id, sender, q));
    Step(a.state, [Probe(q.target, key, base.info)] + a.effects + [Trace(id)])
  }

  /** A request that can be served now: look up its key if it names one, check
      it in and start the fetch. If the fetch cannot start, the room is emptied,
      the request released, and the peer sent the status of the successful
      check-in. The record keeps no key. */
  function Serve(s: State, id: ReqId, sender: Name, q: Query, base: Request, key: Option<string>,
                 fetchStarts: bool, pick: nat): (r: Step)
    requires ValidPick(s.rooms, pick)
    ensures r.state.next == s.next && Confined(s, r.state, id, pick)
    ensures id !in s.records ==> (id in r.state.records <==> Release(id) !in r.effects)
  {
    var probe := if key.Some? then [Probe(q.target, key.value, base.info)] else [];
    match CheckIn(s.rooms, id, pick)
    case Err(_) => Step(s, probe + Refusal(id, sender, q))
    case Ok((h, room)) =>
      if fetchStarts then
        Step(s.(rooms := h, records := s.records[id := base.(room := Some(room))]), probe + [Fetch(id, q.target)])
      else
        Step(s.(rooms := CheckOut(h, room)),
             probe + [Release(id), Send(sender, ErrorMessage(Success, q.target, q.room))])
  }

  /** A request from `sender`, carried by `msg`. `adjusted` is the timeout the
      job-size adjustment gives a new record, `pick` the room a check-in gets. */
  function RecvRequest(s: State, sender: Name, msg: seq<Field>, o: Oracle, adjusted: int, pick: nat): (r: Step)
    requires ValidPick(s.rooms, pick)
    // a request never touches another request's record, nor any room but the picked one
    ensures Confined(s, r.state, s.next, pick)
    // a new identity is used exactly when the message decodes and either its job is
    // not yet known or it names a local process of a known job
    ensures r.state.next == (if DecodeRequest(msg).Ok? && (!o.jobKnown || (o.procFound && o.procLocal))
                             then s.next + 1 else s.next)
    // a new request is either kept or released, never both nor neither
    ensures s.next !in s.records && r.state.next == s.next + 1 ==>
              (s.next in r.state.records <==> Release(s.next) !in r.effects)
  {
    match DecodeRequest(msg)
    case Err(_) => Step(s, [])
    case Ok(q) =>
      var key := RequiredKey(q.infos);
      var id := s.next;
      var s1 := s.(next := s.next + 1);
      var base := Base(s, sender, q, adjusted);
      if !o.jobKnown then
        // the job is not known yet: park the request, with its key and live directives
        Admit(s1, id, base.(key := key), pick, Refusal(id, sender, q))
      else if !o.procFound || !o.procLocal then
        Step(s, [Send(sender, ErrorMessage(ErrNotFound, q.target, q.room))])
      else if key.Some? && !o.keyPresent then
        AwaitKey(s1, id, sender, q, base, key.value, pick)
      else
        Serve(s1, id, sender, q, base, key, o.fetchStarts, pick)
  }

  /** A message that does not decode as a request is dropped without a trace. */
  lemma RecvUndecodable(s: State, sender: Name, msg: seq<Field>, o: Oracle, adjusted: int, pick: nat)
    requires ValidPick(s.rooms, pick) && DecodeRequest(msg).Err?
    ensures RecvRequest(s, sender, msg, o, adjusted, pick) == Step(s, [])
  {
  }

  /** The request a peer encoded is the one handled: for a target that is not
      this daemon's, the state is unchanged and the one message sent back reads,
      at the peer, as "not found" for that target and the peer's room, with no
      payload. */
  lemma RecvNotMine(s: State, sender: Name, q: Query, rest: seq<Field>, o: Oracle, adjusted: int, pick: nat)
    requires ValidPick(s.rooms, pick)
    requires o.jobKnown && (!o.procFound || !o.procLocal)
    ensures var r := RecvRequest(s, sender, RequestMessage(q) + rest, o, adjusted, pick);
            && r.state == s && |r.effects| == 1 && r.effects[0].Send? && r.effects[0].dest == sender
            && DecodeResponse(r.effects[0].msg) == Ok(Response(ErrNotFound, q.target, q.room, []))
  {
    RequestRoundTrip(q, rest);
    ErrorMessageDecoding(ErrNotFound, q.target, q.room);
  }

  /** A request for a process of a job not known yet is parked with the key
      it names and its directives still live, and nothing else happens; when the
      hotel is full it is released and the peer told that resources ran out. */
  lemma RecvUnknownJob(s: State, sender: Name, msg: seq<Field>, q: Query, o: Oracle, adjusted: int, pick: nat)
    requires ValidPick(s.rooms, pick) && !o.jobKnown && DecodeRequest(msg) == Ok(q)
    ensures var r := RecvRequest(s, sender, msg, o, adjusted, pick);
            var id := s.next;
            && r.state.next == s.next + 1
            && (!Full(s.rooms) ==>
                  && r.effects == []
                  && r.state.rooms == s.rooms[pick := Some(id)]
                  && id in r.state.records
                  && var req := r.state.records[id];
                  && req.target == q.target && req.proxy == sender && req.remoteRoom == q.room
                  && req.key == RequiredKey(q.infos) && req.info == DirectivesOf(q.infos)
                  && req.timeout == adjusted && req.room == Some(pick) && req.pstatus.None?)
            && (Full(s.rooms) ==>
                  && r.state.rooms == s.rooms && r.state.records == s.records
                  && r.effects == [Release(id), Send(sender, ErrorMessage(ErrOutOfResource, q.target, q.room))])
  {
  }

  /** A request whose awaited key is absent first looks the key up with the
      query's directives, then parks with the key and with directives that have
      been freed, and finally reads the record again. When the hotel is full the
      record is released and the peer refused before that read. */
  lemma RecvAwaitKey(s: State, sender: Name, msg: seq<Field>, q: Query, o: Oracle, adjusted: int, pick: nat)
    requires ValidPick(s.rooms, pick) && DecodeRequest(msg) == Ok(q)
    requires o.jobKnown && o.procFound && o.procLocal && !o.keyPresent
    requires RequiredKey(q.infos).Some?
    ensures var r := RecvRequest(s, sender, msg, o, adjusted, pick);
            var id := s.next;
            var key := RequiredKey(q.infos).value;
            && |q.infos| > 0
            && (!Full(s.rooms) ==>
                  && r.effects == [Probe(q.target, key, Live(q.infos)), Trace(id)]
                  && r.state.rooms == s.rooms[pick := Some(id)]
                  && id in r.state.records
                  && r.state.records[id].key == Some(key)
                  && r.state.records[id].info == Freed(|q.infos|))
            && (Full(s.rooms) ==>
                  && r.state.records == s.records && r.state.rooms == s.rooms
                  && r.effects == [Probe(q.target, key, Live(q.infos)), Release(id),
                                   Send(sender, ErrorMessage(ErrOutOfResource, q.target, q.room)), Trace(id)])
  {
    var base := Base(s, sender, q, adjusted);
    var key := RequiredKey(q.infos).value;
    var a := Admit(s.(next := s.next + 1), s.next, base.(key := Some(key), info := Freed(|q.infos|)),
                   pick, Refusal(s.next, sender, q));
    assert RecvRequest(s, sender, msg, o, adjusted, pick)
        == Step(a.state, [Probe(q.target, key, base.info)] + a.effects + [Trace(s.next)]);
  }

  /** A request that can be served now is checked in and its fetch started;
      the record keeps no key, even when the query named one. If the fetch cannot
      start, the room is emptied again, the record released, and the peer sent an
      error message carrying success, which it cannot read as a response. */
  lemma RecvFetch(s: State, sender: Name, msg: seq<Field>, q: Query, o: Oracle, adjusted: int, pick: nat)
    requires ValidPick(s.rooms, pick) && !Full(s.rooms) && DecodeRequest(msg) == Ok(q)
    requires o.jobKnown && o.procFound && o.procLocal
    requires RequiredKey(q.infos).None? || o.keyPresent
    ensures var r := RecvRequest(s, sender, msg, o, adjusted, pick);
            var id := s.next;
            && (o.fetchStarts ==>
                  && r.effects[|r.effects| - 1] == Fetch(id, q.target)
                  && r.state.rooms == s.rooms[pick := Some(id)]
                  && r.state.records == s.records[id := Base(s, sender, q, adjusted).(room := Some(pick))]
                  && r.state.records[id].key.None?)
            && (!o.fetchStarts ==>
                  && r.state.rooms == s.rooms && r.state.records == s.records
                  && |r.effects| >= 2 && r.effects[|r.effects| - 2] == Release(id)
                  && var last := r.effects[|r.effects| - 1];
                  && last.Send? && last.dest == sender
                  && last.msg == ErrorMessage(Success, q.target, q.room)
                  && DecodeResponse(last.msg).Err?)
  {
    ErrorMessageDecoding(Success, q.target, q.room);
    assert s.rooms[pick := Some(s.next)][pick := None] == s.rooms;
    assert RecvRequest(s, sender, msg, o, adjusted, pick)
        == Serve(s.(next := s.next + 1), s.next, sender, q, Base(s, sender, q, adjusted),
                 RequiredKey(q.infos), o.fetchStarts, pick);
  }

  /** With every room taken, a request that needs a room is released and the
      peer told that resources ran out; nothing is parked or fetched. */
  lemma RecvFullHotel(s: State, sender: Name, msg: seq<Field>, q: Query, o: Oracle, adjusted: int, pick: nat)
    requires ValidPick(s.rooms, pick) && Full(s.rooms) && DecodeRequest(msg) == Ok(q)
    requires !o.jobKnown || (o.procFound && o.procLocal)
    ensures var r := RecvRequest(s, sender, msg, o, adjusted, pick);
            && r.state.rooms == s.rooms && r.state.records == s.records
            && Release(s.next) in r.effects
            && Send(sender, ErrorMessage(ErrOutOfResource, q.target, q.room)) in r.effects
            && forall e :: e in r.effects ==> !e.Fetch?
  {
    var key := RequiredKey(q.infos);
    var id := s.next;
    var s1 := s.(next := s.next + 1);
    var base := Base(s, sender, q, adjusted);
    var r := RecvRequest(s, sender, msg, o, adjusted, pick);
    if !o.jobKnown {
      assert r == Admit(s1, id, base.(key := key), pick, Refusal(id, sender, q));
    } else if key.Some? && !o.keyPresent {
      var a := Admit(s1, id, base.(key := key, info := Freed(|q.infos|)), pick, Refusal(id, sender, q));
      assert r == Step(a.state, [Probe(q.target, key.value, base.info)] + a.effects + [Trace(id)]);
      assert r.effects == [Probe(q.target, key.value, base.info)] + Refusal(id, sender, q) + [Trace(id)];
    } else {
      assert r == Serve(s1, id, sender, q, base, key, o.fetchStarts, pick);
    }
  }

  /** Parking a new request keeps the invariant. */
  lemma AdmitWF(s: State, id: ReqId, req: Request, pick: nat, refusal: seq<Effect>)
    requires WF(s) && Unhoused(s, id) && id < s.next && ValidPick(s.rooms, pick)
    ensures WF(Admit(s, id, req, pick, refusal).state)
  {
    if !Full(s.rooms) {
      ParkWF(s, id, req.(room := Some(pick)), pick);
    }
  }

  /** Serving a new request keeps the invariant. */
  lemma ServeWF(s: State, id: ReqId, sender: Name, q: Query, base: Request, key: Option<string>,
                fetchStarts: bool, pick: nat)
    requires WF(s) && Unhoused(s, id) && id < s.next && ValidPick(s.rooms, pick)
    ensures WF(Serve(s, id, sender, q, base, key, fetchStarts, pick).state)
  {
    if !Full(s.rooms) {
      ParkWF(s, id, base.(room := Some(pick)), pick);
      assert s.rooms[pick := Some(id)][pick := None] == s.rooms;
    }
  }

  /** Handling a request keeps the engine's invariant. */
  lemma RecvWF(s: State, sender: Name, msg: seq<Field>, o: Oracle, adjusted: int, pick: nat)
    requires WF(s) && ValidPick(s.rooms, pick)
    ensures WF(RecvRequest(s, sender, msg, o, adjusted, pick).state)
  {
    if DecodeRequest(msg).Ok? {
      var q := DecodeRequest(msg).value;
      var key := RequiredKey(q.infos);
      var id := s.next;
      var s1 := s.(next := s.next + 1);
      var base := Base(s, sender, q, adjusted);
      assert WF(s1) && Unhoused(s1, id);
      if !o.jobKnown {
        AdmitWF(s1, id, base.(key := key), pick, Refusal(id, sender, q));
      } else if key.Some? && !o.keyPresent {
        AdmitWF(s1, id, base.(key := key, info := Freed(|q.infos|)), pick, Refusal(id, sender, q));
      } else {
        ServeWF(s1, id, sender, q, base, key, o.fetchStarts, pick);
      }
    }
  }

  /** Across handlers: a request parked to await its key, when its room is
      evicted with time left, looks the key up again passing the directives it
      still points at, which were freed when it was parked. */
  lemma AwaitKeyProbesFreed(s: State, sender: Name, msg: seq<Field>, q: Query, o: Oracle, adjusted: int,
                            pick: nat, keyFound: bool, fetchStarts: bool, pick2: nat)
    requires WF(s) && ValidPick(s.rooms, pick) && !Full(s.rooms) && DecodeRequest(msg) == Ok(q)
    requires o.jobKnown && o.procFound && o.procLocal && !o.keyPresent
    requires RequiredKey(q.infos).Some?
    requires AgeTimeout(adjusted, s.unit) > 0
    requires ValidPick(s.rooms, pick2)
    ensures var r := RecvRequest(s, sender, msg, o, adjusted, pick);
            && pick < |r.state.rooms| && r.state.rooms[pick].Some? && r.state.rooms[pick].value in r.state.records
            && r.state.rooms[pick := None] == s.rooms
            && var e := Evict(r.state, pick, keyFound, fetchStarts, pick2).effects;
            && |e| > 0 && e[0] == Probe(q.target, RequiredKey(q.infos).value, Freed(|q.infos|))
  {
    RecvAwaitKey(s, sender, msg, q, o, adjusted, pick);
    var r := RecvRequest(s, sender, msg, o, adjusted, pick);
    assert s.rooms[pick].None?;
    assert s.rooms[pick := Some(s.next)][pick := None] == s.rooms;
    RecvWF(s, sender, msg, o, adjusted, pick);
    if keyFound {
      EvictKeyArrived(r.state, pick, fetchStarts, pick2);
    } else {
      EvictParked(r.state, pick, keyFound, fetchStarts, pick2);
    }
  }
}
