/**
 The answer side of direct modex: the owning daemon capturing its local
 server's result and transmitting it to the requesting daemon, and the
 requesting daemon receiving a response and handing it to every request waiting
 for that process. The response payload is shared among the callbacks it is
 handed to and counted by references.
 */
module Responses {
  import opened Wrappers
  import opened Hotel
  import opened Messages
  import opened Requests
  import opened Engine
  import opened Sweep

  /** The local server's answer to a fetch for request `id`, captured into its
      record; the record must still be live. */
  function CaptureResult(s: State, id: ReqId, status: Status, data: Option<seq<byte>>): (r: State)
    requires id in s.records
    ensures r.records == s.records[id := Capture(s.records[id], status, data)]
    ensures r.(records := s.records) == s
    ensures WF(s) ==> WF(r)
  {
    s.(records := s.records[id := Capture(s.records[id], status, data)])
  }

  /** Send a captured result to the requester: empty the request's room, send
      status, target and the requester's room, with the size and bytes on
      success, and release the request. */
  function Transmit(s: State, id: ReqId): (r: Step)
    requires id in s.records && s.records[id].pstatus.Some?
    ensures r.state.records == s.records - {id}
    ensures r.state.(rooms := s.rooms, records := s.records) == s
    ensures |r.state.rooms| == |s.rooms|
    ensures forall i :: 0 <= i < |s.rooms| && s.records[id].room != Some(i) ==> r.state.rooms[i] == s.rooms[i]
    // one message to the requester, which it reads as the captured status for
    // the requested process and its own room, carrying the data only on success
    ensures |r.effects| == 2 && r.effects[1] == Release(id)
    ensures var req := s.records[id];
            && r.effects[0].Send? && r.effects[0].dest == req.proxy
            && DecodeResponse(r.effects[0].msg)
               == Ok(Response(req.pstatus.value, req.target, req.remoteRoom,
                              if req.pstatus.value == Success then req.data else []))
  {
    var req := s.records[id];
    var m := ResponseMessage(req.pstatus.value, req.target, req.remoteRoom, req.data);
    ResponseRoundTrip(req.pstatus.value, req.target, req.remoteRoom, req.data, []);
    assert m + [] == m;
    Step(s.(rooms := CheckOutRoom(s.rooms, req.room), records := s.records - {id}),
         [Send(req.proxy, ResponseMessage(req.pstatus.value, req.target, req.remoteRoom, req.data)), Release(id)])
  }

  /** Transmitting leaves the request in no room and keeps every other room
      and record as it was. */
  lemma TransmitEmptiesOwnRoom(s: State, id: ReqId)
    requires WF(s) && id in s.records && s.records[id].pstatus.Some?
    ensures var r := Transmit(s, id);
            && WF(r.state)
            && Unhoused(r.state, id) && id !in r.state.records
            && (forall i :: 0 <= i < |s.rooms| && s.rooms[i] != Some(id) ==> r.state.rooms[i] == s.rooms[i])
            && (forall x :: x in s.records && x != id ==> x in r.state.records && r.state.records[x] == s.records[x])
  {
    var room := s.records[id].room;
    if room.Some? {
      CheckOutWF(s, room.value);
    } else {
      assert Unhoused(s, id);
      DropWF(s, id);
    }
  }

  /** The owning daemon's answer, captured for a fresh record and transmitted,
      reads at the requester as the local server's status for the requested
      process and the requester's room, with the data exactly when the status
      is success and data came back. */
  lemma FetchAnswerRoundTrip(s: State, id: ReqId, status: Status, data: Option<seq<byte>>, rest: seq<Field>)
    requires id in s.records && s.records[id].data == []
    ensures var req := s.records[id];
            var t := Transmit(CaptureResult(s, id, status, data), id);
            && t.effects[0] == Send(req.proxy, t.effects[0].msg)
            && DecodeResponse(t.effects[0].msg + rest)
               == Ok(Response(status, req.target, req.remoteRoom,
                              if status == Success && data.Some? then data.value else []))
  {
    var req := CaptureResult(s, id, status, data).records[id];
    ResponseRoundTrip(status, req.target, req.remoteRoom, req.data, rest);
  }

  /** The room a response names: its occupant, if it is a live request, is
      handed the answer and released; the room is emptied either way. */
  function Resolve(s: State, room: int, a: Answer): Step {
    match Knock(s.rooms, room)
    case None => Step(s, [])
    case Some(id) =>
      if id in s.records then
        Step(s.(rooms := CheckOut(s.rooms, room), records := s.records - {id}),
             Deliver(id, s.records[id], a) + [Release(id)])
      else Step(s.(rooms := CheckOut(s.rooms, room)), [])
  }

  /** A response from a peer daemon. The shared payload starts with one
      reference, which the handler drops at the end; undecodable input drops it
      at once and changes nothing. */
  function RecvResponse(s: State, msg: seq<Field>): (r: Step)
    // requests are only ever released, rooms only ever emptied
    ensures r.state.(rooms := s.rooms, records := s.records) == s
    ensures forall x :: x in r.state.records ==> x in s.records && r.state.records[x] == s.records[x]
    ensures |r.state.rooms| == |s.rooms|
    ensures forall i :: 0 <= i < |s.rooms| ==> r.state.rooms[i] == s.rooms[i] || r.state.rooms[i].None?
    // the handler's own payload reference is dropped last
    ensures |r.effects| > 0 && r.effects[|r.effects| - 1] == ReleasePayload
  {
    match DecodeResponse(msg)
    case Err(_) => Step(s, [ReleasePayload])
    case Ok(resp) =>
      var a := Answer(resp.status, resp.payload);
      var first := Resolve(s, resp.room, a);
      var rest := Scan(first.state, resp.target, 0, Some(a));
      ResolveRooms(s, resp.room, a);
      ScanRooms(first.state, resp.target, 0, Some(a));
      Step(rest.state, first.effects + rest.effects + [ReleasePayload])
  }

  /** A message that does not decode only drops the payload reference. */
  lemma RespUndecodable(s: State, msg: seq<Field>)
    requires DecodeResponse(msg).Err?
    ensures RecvResponse(s, msg) == Step(s, [ReleasePayload])
  {
  }

  /** Resolving a room empties it, touches no other room, and releases at most
      its occupant. */
  lemma ResolveRooms(s: State, room: int, a: Answer)
    ensures var f := Resolve(s, room, a);
            && f.state.rooms == CheckOut(s.rooms, room)
            && f.state.(rooms := s.rooms, records := s.records) == s
            && (forall x :: x in f.state.records ==> x in s.records && f.state.records[x] == s.records[x])
            && (forall x :: x in s.records && x !in f.state.records ==> 0 <= room < |s.rooms| && s.rooms[room] == Some(x))
            && (0 <= room < |s.rooms| && s.rooms[room].Some? ==> s.rooms[room].value !in f.state.records)
  {
  }

  /** After a response, the room it names is empty, no room holds a live request
      for the answered process, and every other room is as it was. Exactly the
      named room's occupant and the requests parked for the answered process are
      released; every other record is kept unchanged. */
  lemma RespRooms(s: State, resp: Response, msg: seq<Field>)
    requires DecodeResponse(msg) == Ok(resp)
    ensures var r := RecvResponse(s, msg);
            && |r.state.rooms| == |s.rooms|
            && (0 <= resp.room < |s.rooms| ==> r.state.rooms[resp.room].None?)
            && (forall i :: 0 <= i < |s.rooms| ==> !Targets(r.state, i, resp.target))
            && (forall i :: 0 <= i < |s.rooms| && i != resp.room && !Targets(s, i, resp.target) ==>
                  r.state.rooms[i] == s.rooms[i])
            && (forall x :: x in s.records ==>
                  (x !in r.state.records <==>
                     (0 <= resp.room < |s.rooms| && s.rooms[resp.room] == Some(x))
                     || (ProcMatch(s.records[x].target, resp.target) &&
                         exists i :: 0 <= i < |s.rooms| && s.rooms[i] == Some(x))))
            && (forall x :: x in r.state.records ==> x in s.records && r.state.records[x] == s.records[x])
  {
    var a := Answer(resp.status, resp.payload);
    var f := Resolve(s, resp.room, a);
    var r := RecvResponse(s, msg);
    ResolveRooms(s, resp.room, a);
    ScanRooms(f.state, resp.target, 0, Some(a));
    forall x | x in s.records && ProcMatch(s.records[x].target, resp.target) &&
               (exists i :: 0 <= i < |s.rooms| && s.rooms[i] == Some(x))
      ensures x !in r.state.records
    {
      var i :| 0 <= i < |s.rooms| && s.rooms[i] == Some(x);
      if x in f.state.records {
        assert i != resp.room;
        assert Targets(f.state, i, resp.target);
      }
    }
  }

  /** Every request released by a response whose callback is a modex callback
      is handed the response's status and payload exactly once; no other request
      is. Each released request is released exactly once. */
  lemma RespNotifies(s: State, resp: Response, msg: seq<Field>, x: ReqId)
    requires DecodeResponse(msg) == Ok(resp)
    ensures var r := RecvResponse(s, msg);
            var removed := x in s.records && x !in r.state.records;
            && Occurrences(r.effects, Notify(x, MdxCb, resp.status, resp.payload))
               == (if removed && s.records[x].cbs.mdx then 1 else 0)
            && Occurrences(r.effects, Release(x)) == (if removed then 1 else 0)
  {
    var a := Answer(resp.status, resp.payload);
    var f := Resolve(s, resp.room, a);
    var sc := Scan(f.state, resp.target, 0, Some(a));
    var n := Notify(x, MdxCb, resp.status, resp.payload);
    ResolveRooms(s, resp.room, a);
    ScanNotifies(f.state, resp.target, 0, a, x);
    ScanReleases(f.state, resp.target, 0, Some(a), x);
    OccurrencesAppend(f.effects + sc.effects, [ReleasePayload], n);
    OccurrencesAppend(f.effects, sc.effects, n);
    OccurrencesAppend(f.effects + sc.effects, [ReleasePayload], Release(x));
    OccurrencesAppend(f.effects, sc.effects, Release(x));
    CountOne(ReleasePayload, n);
    CountOne(ReleasePayload, Release(x));
    ResolveCounts(s, resp.room, a, x);
  }

  /** How often resolving a room notifies or releases request `x`. */
  lemma ResolveCounts(s: State, room: int, a: Answer, x: ReqId)
    ensures var f := Resolve(s, room, a);
            var removed := x in s.records && x !in f.state.records;
            && Occurrences(f.effects, Notify(x, MdxCb, a.status, a.payload))
               == (if removed && s.records[x].cbs.mdx then 1 else 0)
            && Occurrences(f.effects, Release(x)) == (if removed then 1 else 0)
            && Occurrences(f.effects, RetainPayload) == Notices(f.effects)
            && Occurrences(f.effects, ReleasePayload) == 0
  {
    var f := Resolve(s, room, a);
    var n := Notify(x, MdxCb, a.status, a.payload);
    if Knock(s.rooms, room).Some? && Knock(s.rooms, room).value in s.records {
      var id := Knock(s.rooms, room).value;
      var m := Notify(id, MdxCb, a.status, a.payload);
      if s.records[id].cbs.mdx {
        assert f.effects == [RetainPayload, m, Release(id)];
        CountThree(RetainPayload, m, Release(id), n);
        CountThree(RetainPayload, m, Release(id), Release(x));
        CountThree(RetainPayload, m, Release(id), RetainPayload);
        CountThree(RetainPayload, m, Release(id), ReleasePayload);
      } else {
        assert f.effects == [Release(id)];
        CountOne(Release(id), n);
        CountOne(Release(id), Release(x));
        CountOne(Release(id), RetainPayload);
        CountOne(Release(id), ReleasePayload);
      }
    }
  }

  /** The payload's references balance: the handler takes one for every
      callback it hands the payload to and drops its own exactly once, last; so
      once every notified callback has dropped its reference, none is left. */
  lemma RespRefcount(s: State, msg: seq<Field>)
    ensures var r := RecvResponse(s, msg);
            && |r.effects| > 0 && r.effects[|r.effects| - 1] == ReleasePayload
            && Occurrences(r.effects, ReleasePayload) == 1
            && Occurrences(r.effects, RetainPayload) == Notices(r.effects)
  {
    var r := RecvResponse(s, msg);
    CountOne(ReleasePayload, ReleasePayload);
    CountOne(ReleasePayload, RetainPayload);
    if DecodeResponse(msg).Ok? {
      var resp := DecodeResponse(msg).value;
      var a := Answer(resp.status, resp.payload);
      var f := Resolve(s, resp.room, a);
      var sc := Scan(f.state, resp.target, 0, Some(a));
      ResolveCounts(s, resp.room, a, 0);
      ScanRetains(f.state, resp.target, 0, Some(a));
      OccurrencesAppend(f.effects + sc.effects, [ReleasePayload], ReleasePayload);
      OccurrencesAppend(f.effects, sc.effects, ReleasePayload);
      OccurrencesAppend(f.effects + sc.effects, [ReleasePayload], RetainPayload);
      OccurrencesAppend(f.effects, sc.effects, RetainPayload);
      NoticesAppend(f.effects + sc.effects, [ReleasePayload]);
      NoticesAppend(f.effects, sc.effects);
    }
  }

  /** A response naming an empty room, or one out of range, is still handed to
      every request parked for the process it answers. */
  lemma RespEmptyRoom(s: State, resp: Response, msg: seq<Field>)
    requires DecodeResponse(msg) == Ok(resp)
    requires Knock(s.rooms, resp.room).None?
    ensures var sc := Scan(s, resp.target, 0, Some(Answer(resp.status, resp.payload)));
            RecvResponse(s, msg) == Step(sc.state, sc.effects + [ReleasePayload])
  {
    var a := Answer(resp.status, resp.payload);
    assert Resolve(s, resp.room, a) == Step(s, []);
    var sc := Scan(s, resp.target, 0, Some(a));
    assert [] + sc.effects + [ReleasePayload] == sc.effects + [ReleasePayload];
  }

  /** Receiving a response keeps the engine's invariant. */
  lemma RespWF(s: State, msg: seq<Field>)
    requires WF(s)
    ensures WF(RecvResponse(s, msg).state)
  {
    if DecodeResponse(msg).Ok? {
      var resp := DecodeResponse(msg).value;
      var a := Answer(resp.status, resp.payload);
      if Knock(s.rooms, resp.room).Some? {
        CheckOutWF(s, resp.room);
      }
      ScanWF(Resolve(s, resp.room, a).state, resp.target, 0, Some(a));
    }
  }

  /** Across daemons: the owning daemon's transmitted answer, received by the
      requesting daemon whose request sits in the room the answer names, hands
      that request's modex callback the owner's status and data exactly once. */
  lemma AnswerReachesRequester(owner: State, oid: ReqId, status: Status, data: Option<seq<byte>>, s: State, x: ReqId)
    requires oid in owner.records && owner.records[oid].data == []
    requires WF(s) && x in s.records && s.records[x].cbs.mdx
    requires owner.records[oid].remoteRoom >= 0 && s.records[x].room == Some(owner.records[oid].remoteRoom as nat)
    ensures var t := Transmit(CaptureResult(owner, oid, status, data), oid);
            var payload := if status == Success && data.Some? then data.value else [];
            && t.effects[0].Send?
            && Occurrences(RecvResponse(s, t.effects[0].msg).effects, Notify(x, MdxCb, status, payload)) == 1
  {
    var req := owner.records[oid];
    var t := Transmit(CaptureResult(owner, oid, status, data), oid);
    var payload := if status == Success && data.Some? then data.value else [];
    var msg := t.effects[0].msg;
    FetchAnswerRoundTrip(owner, oid, status, data, []);
    assert msg + [] == msg;
    var resp := Response(status, req.target, req.remoteRoom, payload);
    RespRooms(s, resp, msg);
    RespNotifies(s, resp, msg, x);
  }
}
