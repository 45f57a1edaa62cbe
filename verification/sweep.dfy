/**
 The registry-wide scan for requests targeting one process: used to clear a
 process's parked requests, and to fan a received answer out to every other
 request waiting for the same process.
 */
module Sweep {
  import opened Wrappers
  import opened Hotel
  import opened Messages
  import opened Requests
  import opened Engine

  /** A received answer to hand to waiting modex callbacks. */
  datatype Answer = Answer(status: Status, payload: seq<byte>)

  /** Room `i` holds a live request whose target matches `p`. */
  predicate Targets(s: State, i: int, p: Proc) {
    && 0 <= i < |s.rooms| && s.rooms[i].Some? && s.rooms[i].value in s.records
    && ProcMatch(s.records[s.rooms[i].value].target, p)
  }

  /** Hand the answer to a request's modex callback, if it has one, after taking
      a reference to the shared payload for it. */
  function Deliver(id: ReqId, req: Request, a: Answer): seq<Effect> {
    if req.cbs.mdx then [RetainPayload, Notify(id, MdxCb, a.status, a.payload)] else []
  }

  /** The effects of scanning room `k` itself: the answer for its occupant (if it
      targets `p`) and its release. */
  function Here(s: State, p: Proc, k: nat, answer: Option<Answer>): seq<Effect>
    requires k < |s.rooms|
  {
    if Targets(s, k, p) then
      var id := s.rooms[k].value;
      (if answer.Some? then Deliver(id, s.records[id], answer.value) else []) + [Release(id)]
    else []
  }

  /** The state the scan continues from after room `k`. */
  function After(s: State, p: Proc, k: nat): State
    requires k < |s.rooms|
  {
    if Targets(s, k, p) then
      s.(rooms := CheckOut(s.rooms, k), records := s.records - {s.rooms[k].value})
    else s
  }

  /** Scan rooms `k` and up: every live occupant targeting `p` is given the
      answer (if there is one), checked out and released; every other room is
      left as it is. */
  function Scan(s: State, p: Proc, k: nat, answer: Option<Answer>): (r: Step)
    requires k <= |s.rooms|
    ensures |r.state.rooms| == |s.rooms|
    ensures r.state.(rooms := s.rooms, records := s.records) == s
    ensures forall x :: x in r.state.records ==> x in s.records && r.state.records[x] == s.records[x]
    decreases |s.rooms| - k
  {
    if k == |s.rooms| then Step(s, [])
    else
      var rest := Scan(After(s, p, k), p, k + 1, answer);
      Step(rest.state, Here(s, p, k, answer) + rest.effects)
  }

  /** What a scan leaves in the rooms: rooms below `k` are untouched; from `k`
      on, no room holds a live request targeting `p`, rooms that did not are
      unchanged, and a room is only ever emptied. Exactly the requests that
      targeted `p` from room `k` or later are released. */
  lemma {:induction false} ScanRooms(s: State, p: Proc, k: nat, answer: Option<Answer>)
    requires k <= |s.rooms|
    ensures var r := Scan(s, p, k, answer);
            && (forall i :: 0 <= i < k ==> r.state.rooms[i] == s.rooms[i])
            && (forall i :: k <= i < |s.rooms| ==> !Targets(r.state, i, p))
            && (forall i :: k <= i < |s.rooms| && !Targets(s, i, p) ==> r.state.rooms[i] == s.rooms[i])
            && (forall i :: k <= i < |s.rooms| ==> r.state.rooms[i] == s.rooms[i] || r.state.rooms[i].None?)
            && (forall i :: k <= i < |s.rooms| && Targets(s, i, p) ==> s.rooms[i].value !in r.state.records)
            && (forall x :: x in s.records && x !in r.state.records ==>
                  ProcMatch(s.records[x].target, p) && exists i :: k <= i < |s.rooms| && s.rooms[i] == Some(x))
    decreases |s.rooms| - k
  {
    if k < |s.rooms| {
      ScanRooms(After(s, p, k), p, k + 1, answer);
    }
  }

  /** Clearing a process: afterwards no room holds a live request targeting
      `p`, every other room is unchanged, and exactly the requests that targeted
      `p` from some room are released. */
  function Clear(s: State, p: Proc): (r: Step)
    ensures |r.state.rooms| == |s.rooms|
    ensures forall i :: 0 <= i < |s.rooms| ==> !Targets(r.state, i, p)
    ensures forall i :: 0 <= i < |s.rooms| && !Targets(s, i, p) ==> r.state.rooms[i] == s.rooms[i]
    ensures forall x :: x in s.records ==>
              (x !in r.state.records <==>
                 ProcMatch(s.records[x].target, p) && exists i :: 0 <= i < |s.rooms| && s.rooms[i] == Some(x))
    ensures forall x :: x in r.state.records ==> x in s.records && r.state.records[x] == s.records[x]
  {
    var r := Scan(s, p, 0, None);
    ScanRooms(s, p, 0, None);
    assert forall x :: (x in s.records && ProcMatch(s.records[x].target, p) &&
                        (exists i :: 0 <= i < |s.rooms| && s.rooms[i] == Some(x))) ==> x !in r.state.records
      by {
      forall x | x in s.records && ProcMatch(s.records[x].target, p) &&
                 (exists i :: 0 <= i < |s.rooms| && s.rooms[i] == Some(x))
        ensures x !in r.state.records
      {
        var i :| 0 <= i < |s.rooms| && s.rooms[i] == Some(x);
        assert Targets(s, i, p);
      }
    }
    r
  }

  /** Scanning keeps the engine's invariant. */
  lemma {:induction false} ScanWF(s: State, p: Proc, k: nat, answer: Option<Answer>)
    requires WF(s) && k <= |s.rooms|
    ensures WF(Scan(s, p, k, answer).state)
    decreases |s.rooms| - k
  {
    if k < |s.rooms| {
      if Targets(s, k, p) { CheckOutWF(s, k); }
      ScanWF(After(s, p, k), p, k + 1, answer);
    }
  }
  /** The status and payload an answer carries, with placeholders for none. */
  function AnswerStatus(answer: Option<Answer>): Status {
    if answer.Some? then answer.value.status else Success
  }

  function AnswerPayload(answer: Option<Answer>): seq<byte> {
    if answer.Some? then answer.value.payload else []
  }

  /** The effects of one room, case by case. */
  lemma HereCases(s: State, p: Proc, k: nat, answer: Option<Answer>)
    requires k < |s.rooms|
    ensures !Targets(s, k, p) ==> Here(s, p, k, answer) == []
    ensures Targets(s, k, p) ==>
              var id := s.rooms[k].value;
              Here(s, p, k, answer) ==
                if answer.Some? && s.records[id].cbs.mdx
                then [RetainPayload, Notify(id, MdxCb, answer.value.status, answer.value.payload), Release(id)]
                else [Release(id)]
  {
  }

  /** Each request the scan releases is released once, and no other is. */
  lemma {:induction false} ScanReleases(s: State, p: Proc, k: nat, answer: Option<Answer>, x: ReqId)
    requires k <= |s.rooms|
    ensures var r := Scan(s, p, k, answer);
            Occurrences(r.effects, Release(x)) == (if x in s.records && x !in r.state.records then 1 else 0)
    decreases |s.rooms| - k
  {
    if k < |s.rooms| {
      var s' := After(s, p, k);
      var h := Here(s, p, k, answer);
      var r := Scan(s', p, k + 1, answer);
      ScanReleases(s', p, k + 1, answer, x);
      OccurrencesAppend(h, r.effects, Release(x));
      HereCases(s, p, k, answer);
      if Targets(s, k, p) {
        var id := s.rooms[k].value;
        CountThree(RetainPayload, Notify(id, MdxCb, AnswerStatus(answer), AnswerPayload(answer)), Release(id), Release(x));
        CountOne(Release(id), Release(x));
        assert Occurrences(h, Release(x)) == (if x == id then 1 else 0);
      }
    }
  }

  /** With an answer, each released request that has a modex callback is handed
      that status and payload exactly once; no other request is. */
  lemma {:induction false} ScanNotifies(s: State, p: Proc, k: nat, a: Answer, x: ReqId)
    requires k <= |s.rooms|
    ensures var r := Scan(s, p, k, Some(a));
            Occurrences(r.effects, Notify(x, MdxCb, a.status, a.payload))
            == (if x in s.records && x !in r.state.records && s.records[x].cbs.mdx then 1 else 0)
    decreases |s.rooms| - k
  {
    if k < |s.rooms| {
      var s' := After(s, p, k);
      var h := Here(s, p, k, Some(a));
      var r := Scan(s', p, k + 1, Some(a));
      ScanNotifies(s', p, k + 1, a, x);
      OccurrencesAppend(h, r.effects, Notify(x, MdxCb, a.status, a.payload));
      HereCases(s, p, k, Some(a));
      if Targets(s, k, p) {
        var id := s.rooms[k].value;
        CountThree(RetainPayload, Notify(id, MdxCb, a.status, a.payload), Release(id), Notify(x, MdxCb, a.status, a.payload));
        CountOne(Release(id), Notify(x, MdxCb, a.status, a.payload));
        assert Occurrences(h, Notify(x, MdxCb, a.status, a.payload)) ==
               (if x == id && s.records[id].cbs.mdx then 1 else 0);
      }
    }
  }

  /** A scan does nothing but release requests and, with an answer, take
      payload references and notify released requests' modex callbacks with
      that answer. */
  lemma {:induction false} ScanShape(s: State, p: Proc, k: nat, answer: Option<Answer>)
    requires k <= |s.rooms|
    ensures var r := Scan(s, p, k, answer);
            forall e :: e in r.effects ==>
              || e.Release?
              || (answer.Some? && e == RetainPayload)
              || (answer.Some? && e.Notify? && e.id in s.records && e.id !in r.state.records
                  && e == Notify(e.id, MdxCb, answer.value.status, answer.value.payload))
    decreases |s.rooms| - k
  {
    if k < |s.rooms| {
      ScanShape(After(s, p, k), p, k + 1, answer);
      HereCases(s, p, k, answer);
    }
  }

  /** A scan takes one payload reference per notification and drops none. */
  lemma {:induction false} ScanRetains(s: State, p: Proc, k: nat, answer: Option<Answer>)
    requires k <= |s.rooms|
    ensures var r := Scan(s, p, k, answer);
            && Occurrences(r.effects, RetainPayload) == Notices(r.effects)
            && Occurrences(r.effects, ReleasePayload) == 0
    decreases |s.rooms| - k
  {
    if k < |s.rooms| {
      var h := Here(s, p, k, answer);
      var r := Scan(After(s, p, k), p, k + 1, answer);
      ScanRetains(After(s, p, k), p, k + 1, answer);
      HereCases(s, p, k, answer);
      OccurrencesAppend(h, r.effects, RetainPayload);
      OccurrencesAppend(h, r.effects, ReleasePayload);
      NoticesAppend(h, r.effects);
      if Targets(s, k, p) {
        var id := s.rooms[k].value;
        var n := Notify(id, MdxCb, AnswerStatus(answer), AnswerPayload(answer));
        CountThree(RetainPayload, n, Release(id), RetainPayload);
        CountThree(RetainPayload, n, Release(id), ReleasePayload);
        CountOne(Release(id), RetainPayload);
        CountOne(Release(id), ReleasePayload);
      }
    }
  }

  /** Clearing a process keeps the engine's invariant, and does nothing but
      release, once each, the requests it removes. */
  lemma ClearEffects(s: State, p: Proc, x: ReqId)
    ensures var r := Clear(s, p);
            && (WF(s) ==> WF(r.state))
            && (forall e :: e in r.effects ==> e.Release?)
            && Occurrences(r.effects, Release(x)) == (if x in s.records && x !in r.state.records then 1 else 0)
  {
    if WF(s) { ScanWF(s, p, 0, None); }
    ScanShape(s, p, 0, None);
    ScanReleases(s, p, 0, None, x);
  }
}
