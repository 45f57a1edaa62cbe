/**
 The record of one tracked request (`pmix_server_req_t`), its defaults, the
 timeout arithmetic one eviction applies to it, and the capture of a fetch
 result on the adapter's thread.
 */
module Requests {
  import opened Wrappers
  import opened Messages

  /** A daemon's name on the messaging transport; `InvalidName` is PRRTE_NAME_INVALID. */
  datatype Name = InvalidName | Name(jobid: nat, vpid: nat)

  /** The completion callbacks a request can carry; each flag says the pointer is non-null. */
  datatype Callbacks = Callbacks(op: bool, mdx: bool, spawn: bool, lookup: bool)

  const NoCallbacks := Callbacks(false, false, false, false)

  /** The callback kinds, in the order the timeout path tries them. */
  datatype Callback = OpCb | MdxCb | SpawnCb | LookupCb

  function Priority(c: Callback): nat {
    match c
    case OpCb => 0
    case MdxCb => 1
    case SpawnCb => 2
    case LookupCb => 3
  }

  predicate IsSet(cbs: Callbacks, c: Callback) {
    match c
    case OpCb => cbs.op
    case MdxCb => cbs.mdx
    case SpawnCb => cbs.spawn
    case LookupCb => cbs.lookup
  }

  /** The directive array a request points at: none, a live array, or one that
      has been freed while the request still points at it (`count` entries). */
  datatype Directives = NoInfo | Live(infos: seq<Info>) | Freed(count: nat)

  /** One tracked request. `room` is the hotel room its last check-in gave it
      (`None` when it has none); `pstatus` and `data` hold the captured fetch
      result (`pstatus` is `None` until a result is captured, `data` is empty
      for a null buffer). */
  datatype Request = Request(
    target: Proc,
    proxy: Name,
    remoteRoom: int,
    key: Option<string>,
    info: Directives,
    timeout: int,
    room: Option<nat>,
    cbs: Callbacks,
    pstatus: Option<Status>,
    data: seq<byte>)

  /** A request as the request constructor leaves it, for the process `target`
      its creator copies in straight away: no remote room (-1), the timeout
      unit as timeout, no key, no directives, no callbacks, no data. */
  function Fresh(unit: int, target: Proc): Request {
    Request(target, InvalidName, -1, None, NoInfo, unit, None, NoCallbacks, None, [])
  }

  /** The timeout left after one eviction with timeout unit `unit`: the unit is
      taken off once, and a second time if the value is still positive. The
      request has timed out when the value is no longer positive. */
  function AgeTimeout(t: int, unit: int): (r: int)
    ensures unit >= 0 ==> (r <= 0 <==> t <= 2 * unit)
    ensures r > 0 ==> r == t - 2 * unit
    ensures r <= 0 ==> r == t - unit || r == t - 2 * unit
  {
    var once := t - unit;
    if once > 0 then once - unit else once
  }

  /** The number of evictions a request with timeout `t` survives before the
      one that times it out. */
  function Survivals(t: int, unit: int): nat
    requires unit > 0
    decreases if t > 0 then t else 0
  {
    if AgeTimeout(t, unit) <= 0 then 0 else 1 + Survivals(AgeTimeout(t, unit), unit)
  }

  /** Because every surviving eviction takes two units off, a request with a
      positive timeout `t` survives n evictions and times out on the next one
      exactly when 2*unit*n < t <= 2*unit*(n + 1): about t / (2 * unit) evictions
      in all, not t / unit. */
  lemma {:induction false} SurvivalsCount(t: int, unit: int)
    requires unit > 0 && t > 0
    ensures 2 * unit * Survivals(t, unit) < t <= 2 * unit * (Survivals(t, unit) + 1)
    decreases t
  {
    if t > 2 * unit {
      var n := Survivals(t - 2 * unit, unit);
      SurvivalsCount(t - 2 * unit, unit);
      assert Survivals(t, unit) == n + 1;
      assert 2 * unit * (n + 1) == 2 * unit * n + 2 * unit;
      assert 2 * unit * (n + 2) == 2 * unit * (n + 1) + 2 * unit;
    }
  }

  /** The scenario of a request parked with timeout 4 under a unit of 2: the
      first eviction already times it out, because it takes off 4, not 2. */
  lemma DoubleDecrementScenario()
    ensures AgeTimeout(4, 2) == 0
    ensures Survivals(4, 2) == 0
    ensures AgeTimeout(5, 2) == 1 && Survivals(5, 2) == 1
  {
  }

  /** A fresh request, whose timeout is one unit, times out on its first eviction. */
  lemma FreshRequestExpiresFirst(unit: int, target: Proc)
    requires unit > 0
    ensures AgeTimeout(Fresh(unit, target).timeout, unit) <= 0
    ensures Fresh(unit, target).remoteRoom < 0
    ensures forall c :: !IsSet(Fresh(unit, target).cbs, c)
  {
  }

  /** The result capture done on the adapter's thread: the status is always
      kept, the data is copied only for a successful status with a non-null
      buffer; nothing else in the request changes. */
  function Capture(req: Request, status: Status, data: Option<seq<byte>>): (r: Request)
    ensures r.pstatus == Some(status)
    ensures status == Success && data.Some? ==> r.data == data.value
    ensures !(status == Success && data.Some?) ==> r.data == req.data
    ensures r.(pstatus := req.pstatus, data := req.data) == req
  {
    req.(pstatus := Some(status),
         data := if status == Success && data.Some? then data.value else req.data)
  }
}
