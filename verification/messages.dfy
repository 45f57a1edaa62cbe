/**
 Process identities, status codes, directives and the three direct-modex
 messages, each modelled as the ordered sequence of fields the PMIx data
 buffer is packed with. The byte-level packing lives in the PMIx library and
 is not part of this model.
 */
module Messages {
  import opened Wrappers

  newtype byte = x: int | 0 <= x < 256

  /** A PMIx rank: a number, or the wildcard that stands for every rank of a namespace. */
  datatype Rank = Rank(n: nat) | Wildcard

  /** A PMIx process identifier: namespace and rank. */
  datatype Proc = Proc(nspace: string, rank: Rank)

  /** PMIX_CHECK_PROCID: same namespace and same rank, where a wildcard rank on
      either side matches every rank. */
  predicate ProcMatch(a: Proc, b: Proc) {
    a.nspace == b.nspace && (a.rank == b.rank || a.rank.Wildcard? || b.rank.Wildcard?)
  }

  /** The status codes the engine produces or forwards. */
  datatype Status = Success | ErrTimeout | ErrNotFound | ErrOutOfResource | ErrOther(code: int)

  /** One directive (a PMIx info entry) of a request; values are strings here. */
  datatype Info = Info(key: string, value: string)

  /** PMIX_REQUIRED_KEY: the directive naming a key the answer must wait for. */
  const RequiredKeyName: string := "pmix.req.key"

  /** One packed field of a message buffer. */
  datatype Field =
    | FStatus(status: Status)
    | FProc(proc: Proc)
    | FInt(n: int)
    | FSize(size: nat)
    | FBytes(bytes: seq<byte>)
    | FInfo(info: Info)

  /** Why an inbound buffer could not be read. */
  datatype DecodeError = Truncated(at: nat) | WrongType(at: nat)

  /** A direct-modex request as the owning daemon reads it: the process whose
      data is wanted, the requester's room, and its directives. */
  datatype Query = Query(target: Proc, room: int, infos: seq<Info>)

  /** A direct-modex response as the requesting daemon reads it. */
  datatype Response = Response(status: Status, target: Proc, room: int, payload: seq<byte>)

  /** The value of the first directive whose key is PMIX_REQUIRED_KEY, if any. */
  function RequiredKey(infos: seq<Info>): (r: Option<string>)
    ensures r.None? <==> forall i :: 0 <= i < |infos| ==> infos[i].key != RequiredKeyName
    ensures r.Some? ==> exists i :: 0 <= i < |infos| && infos[i] == Info(RequiredKeyName, r.value)
                           && forall j :: 0 <= j < i ==> infos[j].key != RequiredKeyName
  {
    if |infos| == 0 then None
    else if infos[0].key == RequiredKeyName then Some(infos[0].value)
    else
      var rest := RequiredKey(infos[1..]);
      assert forall j :: 1 <= j < |infos| ==> infos[j] == infos[1..][j - 1];
      rest
  }

  /** The error message: status, requested process, the requester's room; no payload. */
  function ErrorMessage(status: Status, target: Proc, room: int): seq<Field> {
    [FStatus(status), FProc(target), FInt(room)]
  }

  /** The response: the error message's three fields, then on success only the
      payload size and, when that is positive, the payload bytes. */
  function ResponseMessage(status: Status, target: Proc, room: int, data: seq<byte>): seq<Field> {
    ErrorMessage(status, target, room)
      + (if status == Success then [FSize(|data|)] + (if |data| > 0 then [FBytes(data)] else []) else [])
  }

  /** The request: target process, requester's room, directive count, directives. */
  function RequestMessage(q: Query): seq<Field> {
    [FProc(q.target), FInt(q.room), FSize(|q.infos|)] + InfoFields(q.infos)
  }

  function InfoFields(infos: seq<Info>): (f: seq<Field>)
    ensures |f| == |infos|
    ensures forall i :: 0 <= i < |infos| ==> f[i] == FInfo(infos[i])
  {
    if |infos| == 0 then [] else [FInfo(infos[0])] + InfoFields(infos[1..])
  }

  /** Read `n` directives from the front of `f`. */
  function TakeInfos(f: seq<Field>, n: nat): (r: Option<seq<Info>>)
    ensures r.Some? <==> n <= |f| && forall i :: 0 <= i < n ==> f[i].FInfo?
    ensures r.Some? ==> |r.value| == n && forall i :: 0 <= i < n ==> f[i] == FInfo(r.value[i])
    decreases n
  {
    if n == 0 then Some([])
    else if |f| == 0 || !f[0].FInfo? then None
    else
      match TakeInfos(f[1..], n - 1)
      case None =>
        assert !(n <= |f| && forall i :: 0 <= i < n ==> f[i].FInfo?) by {
          if n <= |f| && forall i :: 0 <= i < n ==> f[i].FInfo? {
            assert forall i :: 0 <= i < n - 1 ==> f[1..][i] == f[i + 1];
          }
        }
        None
      case Some(rest) => Some([f[0].info] + rest)
  }

  /** The owning daemon's reading of a request (the unpacking sequence of the
      request receiver): process, room, directive count, then that many directives. */
  function DecodeRequest(f: seq<Field>): (r: Result<Query, DecodeError>)
    ensures r.Ok? ==> |RequestMessage(r.value)| <= |f| && f[..|RequestMessage(r.value)|] == RequestMessage(r.value)
  {
    if |f| < 1 then Err(Truncated(0))
    else if !f[0].FProc? then Err(WrongType(0))
    else if |f| < 2 then Err(Truncated(1))
    else if !f[1].FInt? then Err(WrongType(1))
    else if |f| < 3 then Err(Truncated(2))
    else if !f[2].FSize? then Err(WrongType(2))
    else if f[2].size == 0 then Ok(Query(f[0].proc, f[1].n, []))
    else
      match TakeInfos(f[3..], f[2].size)
      case None => Err(Truncated(3))
      case Some(infos) =>
        assert f[..3 + |infos|] == [f[0], f[1], f[2]] + InfoFields(infos);
        Ok(Query(f[0].proc, f[1].n, infos))
  }

  /** The requesting daemon's reading of a response: status, process and room,
      and the size and bytes only when the status is success. */
  function DecodeResponse(f: seq<Field>): (r: Result<Response, DecodeError>)
    ensures r.Ok? && r.value.status != Success ==> r.value.payload == []
    ensures r.Ok? ==>
              var m := ResponseMessage(r.value.status, r.value.target, r.value.room, r.value.payload);
              |m| <= |f| && f[..|m|] == m
  {
    if |f| < 1 then Err(Truncated(0))
    else if !f[0].FStatus? then Err(WrongType(0))
    else if |f| < 2 then Err(Truncated(1))
    else if !f[1].FProc? then Err(WrongType(1))
    else if |f| < 3 then Err(Truncated(2))
    else if !f[2].FInt? then Err(WrongType(2))
    else if f[0].status != Success then Ok(Response(f[0].status, f[1].proc, f[2].n, []))
    else if |f| < 4 then Err(Truncated(3))
    else if !f[3].FSize? then Err(WrongType(3))
    else if f[3].size == 0 then Ok(Response(Success, f[1].proc, f[2].n, []))
    else if |f| < 5 then Err(Truncated(4))
    else if !f[4].FBytes? || |f[4].bytes| != f[3].size then Err(WrongType(4))
    else Ok(Response(Success, f[1].proc, f[2].n, f[4].bytes))
  }

  /** Decoding a response recovers status, process and room, and the payload
      exactly when the status is success; later fields are never read. */
  lemma ResponseRoundTrip(status: Status, target: Proc, room: int, data: seq<byte>, rest: seq<Field>)
    ensures DecodeResponse(ResponseMessage(status, target, room, data) + rest)
            == Ok(Response(status, target, room, if status == Success then data else []))
  {
  }

  /** An error message with a failure status reads back as a response without
      payload; one carrying the success status cannot be read at all, because the
      reader then expects a size field the error message never has. */
  lemma ErrorMessageDecoding(status: Status, target: Proc, room: int)
    ensures status != Success ==>
              DecodeResponse(ErrorMessage(status, target, room)) == Ok(Response(status, target, room, []))
    ensures status == Success ==> DecodeResponse(ErrorMessage(status, target, room)).Err?
  {
  }

  /** Decoding a request recovers process, room and every directive. */
  lemma {:induction false} RequestRoundTrip(q: Query, rest: seq<Field>)
    ensures DecodeRequest(RequestMessage(q) + rest) == Ok(q)
  {
    var f := RequestMessage(q) + rest;
    assert f[3..] == InfoFields(q.infos) + rest;
    if |q.infos| > 0 {
      var t := TakeInfos(f[3..], |q.infos|);
      assert t.Some?;
      assert t.value == q.infos;
    }
  }
}
