# Direct-modex engine of the PRRTE daemon's PMIx server

This project models the direct-modex ("dmdx") engine of a PRRTE daemon, in Dafny.
The engine lets a daemon ask a peer daemon for the modex data of one process
that the peer hosts. It also answers such requests from peers.

- The **requesting daemon** parks each outstanding request in a fixed-size
  *hotel*: an array of rooms with a timer per room. The request's room
  number goes out in the query.
- The **owning daemon** decodes the query. It then does one of four things:
  - parks the query until the target's job is known;
  - refuses it;
  - parks it until an awaited key appears;
  - checks it in and asks its local PMIx server for the data.
  When the data arrives it is sent back with the requester's room number.
- When a response arrives, the requesting daemon empties the named room.
  It hands the answer to that request's modex callback. It also hands it to
  every other parked request for the same process.
- When a room's timer fires, the *eviction* callback takes the timeout unit
  off the request, and takes it off again if the value is still positive. It
  then does one of three things:
  - re-parks the request;
  - starts the fetch its awaited key now allows;
  - gives up and tells whoever is waiting.

The model is functional. The engine's globals are an immutable `State`
(`Engine.State`):

- the hotel, as a sequence of optional request identities;
- the live request records, as a map from identity to `Request`;
- the room count, the timeout unit, and the initialised flag.

Every handler is a pure function. It takes a state, the message, and the
answers of the collaborators it consults, and returns a `Step`: the new state
plus the ordered list of `Effect`s it caused. The effects are:

- messages sent;
- fetches and key lookups started;
- callbacks invoked;
- request releases;
- payload references taken or dropped.

Releasing a request removes its record.

Collaborators the engine calls but does not own are parameters:

- the job and process tables;
- the key lookup;
- the local server's fetch;
- the timeout adjustment;
- the hotel's choice of room.

The hotel may give any empty room, and fails only when every room is taken
(`Hotel.ValidPick`).

Messages are sequences of typed fields (`Messages.Field`), in the order the
source packs them. Each encoder has the decoder the other side runs.

The code is modelled as written, including these behaviours:

- One eviction takes the timeout unit off twice when the first subtraction
  leaves a positive value. A request therefore survives about `t / (2*unit)`
  evictions (`Requests.SurvivalsCount`).
- When the fetch for a servable request cannot start, the peer is sent an error
  message carrying the *success* status of the check-in that preceded it. The
  peer's decoder then expects a size field that is not there, so it cannot read
  the message (`Inbound.RecvFetch`).
- A request that awaits a key keeps a pointer to directives that are freed just
  before it is parked. Every later eviction that leaves the request time passes
  those freed directives to the key lookup (`Inbound.AwaitKeyProbesFreed`).
- An eviction that finds the awaited key and starts the fetch re-parks the
  request with its key still set. The next eviction that leaves it time and
  finds the key starts a second fetch for the same request
  (`Eviction.FetchRepeats`).
- After a failed check-in of such a request, the record is read once more after
  it has been released (`Inbound.RecvAwaitKey`, effect `Trace`).
- The initialised flag is set before the hotel is built. A failed
  initialisation is therefore never retried, and a second call reports success
  (`Engine.InitIdempotent`). The hotel is constructed empty before it is built,
  so after a failed build it has no rooms.

## Model

| member | source | states |
|---|---|---|
| Hotel.CheckIn | src/prted/pmix/pmix_server.c:832-836 | a check-in fails exactly when every room is taken; on success the request occupies an empty room and no other room changes |
| Hotel.CheckInCapacity | src/prted/pmix/pmix_server.c:903-908 | a check-in succeeds exactly when fewer requests than rooms are parked, and a success parks one more |
| Hotel.OccupancyFull | src/prted/pmix/pmix_server.c:903-908 | the hotel is full exactly when the number of occupied rooms equals the number of rooms |
| Hotel.CheckOut | src/prted/pmix/pmix_server.c:913 | checking out keeps the room count and every other room, and empties the room when it is in range |
| Hotel.CapacityScenario | src/prted/pmix/pmix_server.c:903-908 | in a two-room hotel two check-ins succeed, a third fails with no vacancy, and after one checkout the third gets exactly the freed room |
| Messages.RequiredKey | src/prted/pmix/pmix_server.c:796-807 | the awaited key is the value of the first directive named `pmix.req.key`; there is none exactly when no directive has that name |
| Messages.TakeInfos | src/prted/pmix/pmix_server.c:785-793 | reading n directives succeeds exactly when the next n fields are directives, and returns those directives in order |
| Messages.DecodeRequest | src/prted/pmix/pmix_server.c:761-793 | a request is accepted only when the fields begin with that request's own encoding |
| Messages.DecodeResponse | src/prted/pmix/pmix_server.c:973-1019 | a response is accepted only when the fields begin with that response's own encoding, and a failure status never carries a payload |
| Messages.RequestRoundTrip | src/prted/pmix/pmix_server.c:761-793 | the owning daemon's unpacking of a request recovers the target, the requester's room and every directive, whatever follows |
| Messages.ResponseRoundTrip | src/prted/pmix/pmix_server.c:973-1019 | the requester's unpacking of a response recovers status, target and room, and the payload exactly when the status is success |
| Messages.ErrorMessageDecoding | src/prted/pmix/pmix_server.c:607-647 | an error message with a failure status reads back as that status with no payload; one carrying success cannot be read at all |
| Requests.AgeTimeout | src/prted/pmix/pmix_server.c:228-235 | after one eviction the request has timed out exactly when its timeout was at most two units; a surviving request has lost two units |
| Requests.SurvivalsCount | src/prted/pmix/pmix_server.c:228-235 | a request with timeout t survives n evictions, with 2·unit·n < t ≤ 2·unit·(n+1) |
| Requests.DoubleDecrementScenario | src/prted/pmix/pmix_server.c:228-235 | with a unit of 2, a timeout of 4 expires on the first eviction and a timeout of 5 survives exactly one |
| Requests.FreshRequestExpiresFirst | src/prted/pmix/pmix_server.c:1134-1162 | a freshly constructed request has no remote room and no callbacks, and its one-unit timeout expires on its first eviction |
| Requests.Capture | src/prted/pmix/pmix_server.c:715-730 | the fetch status is always kept; the data is copied only for a success with a non-null buffer; nothing else in the request changes |
| Engine.CheckOutWF | src/prted/pmix/pmix_server.c:1047-1048 | checking out an occupied room and releasing its occupant keeps the invariant and leaves that request in no room |
| Engine.ParkWF | src/prted/pmix/pmix_server.c:832-836 | parking a request that is in no room, in an empty room, keeps the invariant |
| Engine.RoomCount | src/prted/pmix/pmix_server.c:337-342 | an unset count (-1) becomes at least 4096 and at least twice the daemon count, and is one of the two; a set count is kept |
| Engine.Init | src/prted/pmix/pmix_server.c:323-349 | initialisation always sets the flag; a second call changes nothing and succeeds; a first call leaves no records and an empty, well-formed hotel of the chosen size, or none when its build fails, whose status is then returned |
| Engine.InitSizesHotel | src/prted/pmix/pmix_server.c:337-346 | a first successful initialisation builds an empty hotel of the configured size, or of twice the daemon count but at least 4096 rooms when none is configured |
| Engine.InitIdempotent | src/prted/pmix/pmix_server.c:323-349 | once initialisation has run, running it again changes nothing and reports success, even after a failed hotel build, which returns its status and leaves a hotel with no rooms |
| Eviction.NoticeChoice | src/prted/pmix/pmix_server.c:277-288 | on the terminal path exactly one party is told when anyone can be: the peer when there is a remote room, otherwise the highest-priority callback that is set, with the timeout status |
| Eviction.Evict | src/prted/pmix/pmix_server.c:216-290 | an eviction changes only the evicted request's record, its room and the room it is checked into; the request is released exactly when it is no longer live; its old room is left empty unless it is checked back into it |
| Eviction.EvictExpired | src/prted/pmix/pmix_server.c:228-289 | an eviction that exhausts the timeout skips the re-park and key check and leaves the room empty, releases the request, and only notifies before that release |
| Eviction.EvictParked | src/prted/pmix/pmix_server.c:236-272 | an eviction with time left and no arrived key re-parks the request; that check-in cannot fail, so nothing else is sent or notified |
| Eviction.EvictKeyArrived | src/prted/pmix/pmix_server.c:236-257 | an eviction whose awaited key has arrived re-parks the request and starts the fetch; if the fetch cannot start, the peer gets a timeout error and the request is released |
| Eviction.EvictWF | src/prted/pmix/pmix_server.c:216-290 | every eviction keeps the invariant |
| Eviction.FetchRepeats | src/prted/pmix/pmix_server.c:244-257 | a key-found eviction whose fetch starts leaves the request parked with its key, so the next such eviction starts a second fetch for the same request |
| Eviction.SilentTimeout | src/prted/pmix/pmix_server.c:277-289 | a one-unit request that nobody waits on is released silently on its first eviction |
| Sweep.Scan | src/prted/pmix/pmix_server.c:1037-1050 | scanning rooms keeps the room count and every record it does not release |
| Sweep.ScanRooms | src/prted/pmix/pmix_server.c:1037-1050 | after the scan no room holds a live request for the process; other rooms are unchanged; exactly the requests parked for it are released |
| Sweep.Clear | src/prted/pmix/pmix_server.c:293-307 | clearing a process leaves no room holding a live request for it and other rooms unchanged; a record is released exactly when it targeted the process from some room |
| Sweep.ClearEffects | src/prted/pmix/pmix_server.c:293-307 | clearing keeps the invariant and does nothing but release, once each, the requests it removes |
| Sweep.ScanWF | src/prted/pmix/pmix_server.c:1037-1050 | the scan keeps the invariant |
| Sweep.ScanReleases | src/prted/pmix/pmix_server.c:1047-1048 | each request the scan removes is released exactly once, and no other request is |
| Sweep.ScanNotifies | src/prted/pmix/pmix_server.c:1042-1046 | with an answer, every removed request with a modex callback gets the answer exactly once, and no other request does |
| Sweep.ScanShape | src/prted/pmix/pmix_server.c:1037-1050 | a scan only releases requests, takes payload references, and notifies removed requests' modex callbacks with the answer |
| Sweep.ScanRetains | src/prted/pmix/pmix_server.c:1043-1045 | a scan takes one payload reference per notification and drops none |
| Inbound.Admit | src/prted/pmix/pmix_server.c:832-836 | when the hotel is full, nothing changes and the caller's refusal is the only effect; otherwise one more room is occupied, by the new request, which records that room, and every other room and record is unchanged |
| Inbound.RecvRequest | src/prted/pmix/pmix_server.c:737-919 | a request changes no other request's record and no room but the picked one; it uses a new identity exactly when it decodes and either its job is not yet known or it names a local process of a known job; that new request is then either kept or released, never both |
| Inbound.RecvUndecodable | src/prted/pmix/pmix_server.c:761-793 | a request that cannot be unpacked is dropped with no effect on the state and no reply |
| Inbound.RecvNotMine | src/prted/pmix/pmix_server.c:839-848 | for a missing or non-local process the state is unchanged, and the one reply reads at the peer as "not found" for that process and room |
| Inbound.RecvUnknownJob | src/prted/pmix/pmix_server.c:811-838 | a request for a job not yet known is parked with its key and live directives and nothing else happens; a full hotel releases it and refuses the peer |
| Inbound.RecvAwaitKey | src/prted/pmix/pmix_server.c:850-883 | a request whose awaited key is absent looks the key up with live directives, then parks with freed directives; the record is read again last, even after a failed check-in released it |
| Inbound.RecvFetch | src/prted/pmix/pmix_server.c:891-918 | a servable request is parked without a key and its fetch started; if the fetch cannot start, rooms and records are as before and the peer gets an unreadable success error |
| Inbound.RecvFullHotel | src/prted/pmix/pmix_server.c:832-836 | with every room taken, a request that needs a room is released and refused for lack of resources, and no fetch starts |
| Inbound.AdmitWF | src/prted/pmix/pmix_server.c:874-878 | parking a new request keeps the invariant |
| Inbound.ServeWF | src/prted/pmix/pmix_server.c:903-917 | serving a new request keeps the invariant |
| Inbound.RecvWF | src/prted/pmix/pmix_server.c:737-919 | handling a request keeps the invariant |
| Inbound.AwaitKeyProbesFreed | src/prted/pmix/pmix_server.c:244 | a request parked to await its key, once evicted with time left, looks the key up with the directives freed when it was parked |
| Responses.CaptureResult | src/prted/pmix/pmix_server.c:715-730 | capturing the fetch result changes only that request's record, and keeps the invariant |
| Responses.Transmit | src/prted/pmix/pmix_server.c:649-711 | transmitting removes the request's record, empties only its own room, and sends the requester one message that reads as the captured status for that process and room, with the data only on success, then releases the request |
| Responses.TransmitEmptiesOwnRoom | src/prted/pmix/pmix_server.c:649-711 | transmitting keeps the invariant and leaves the request released and in no room; other rooms and records are unchanged |
| Responses.FetchAnswerRoundTrip | src/prted/pmix/pmix_server.c:668-698 | a captured answer, once transmitted, reads at the requester as the local server's status for that process and room, with data exactly for a success with data |
| Responses.RecvResponse | src/prted/pmix/pmix_server.c:948-1052 | a response only releases records and only empties rooms, keeps the room count, and drops its own payload reference as its last effect |
| Responses.RespUndecodable | src/prted/pmix/pmix_server.c:973-1019 | an unreadable response changes nothing and only drops the payload's one reference |
| Responses.ResolveRooms | src/prted/pmix/pmix_server.c:1022-1034 | resolving the named room empties it, touches no other room, and releases at most its occupant |
| Responses.ResolveCounts | src/prted/pmix/pmix_server.c:1022-1034 | resolving the named room notifies and releases only its occupant, once each, and takes a payload reference for each notification |
| Responses.RespRooms | src/prted/pmix/pmix_server.c:1022-1050 | after a response the named room is empty and no room holds a live request for the answered process; exactly the occupant and the requests parked for that process are released |
| Responses.RespNotifies | src/prted/pmix/pmix_server.c:1022-1050 | every released request with a modex callback gets the response's status and payload exactly once; every released request is released exactly once |
| Responses.RespRefcount | src/prted/pmix/pmix_server.c:1022-1051 | the handler takes one payload reference per notification and drops its own exactly once, last |
| Responses.RespEmptyRoom | src/prted/pmix/pmix_server.c:1031-1034 | a response naming an empty or out-of-range room is still handed to every request parked for its process |
| Responses.RespWF | src/prted/pmix/pmix_server.c:948-1052 | handling a response keeps the invariant |
| Responses.AnswerReachesRequester | src/prted/pmix/pmix_server.c:649-711 | the owner's transmitted answer reaches the requester's request in the named room, whose modex callback gets the owner's status and data exactly once |

## Left out

- Parameter registration (`pmix_server_register_params`) is not modelled. The configured room count and timeout unit are fields of `State`.
- Most of `pmix_server_init` is not modelled: attribute registration, the local PMIx server's start-up, and building the info list, including the hwloc topology export, which can fail with PRRTE_ERROR. Their combined status is the parameter `restRc`.
- `pmix_server_start` (which posts the receives for both direct-modex messages), `pmix_server_finalize` and `pmix_server_log` are not modelled; they belong to other parts of the server.
- The hotel's own code (`prrte_hotel.c`) is not part of this model. The hotel is given an abstract contract:
  - any empty room on check-in;
  - failure only when full;
  - checkout of an empty or out-of-range room does nothing.
- Room timers, the event loop, and the thread shift from the local server's thread to the daemon's event thread are not modelled. Each handler runs to completion on one state, and an eviction is called with the room whose timer fired.
- The hotel vacates a room before its eviction callback runs. Because of this, the re-check-in at line 266 cannot fail. The model keeps the fall-through branch, but it is unreachable.
- Byte-level packing is not modelled. Messages are typed field sequences, and a pack operation cannot fail in the model.
- A failed pack in `send_error` and `_mdxresp`, and its error path, are not modelled.
- `Hotel.CheckIn`: the hotel's failure code is taken to be "out of resource" wherever the source forwards the check-in's status (lines 835, 877, 906 and 266-288).
- The translation `prrte_pmix_convert_rc` between PRRTE and PMIx status codes is not modelled; the model uses one status type.
- `Messages.ProcMatch`: the process-match macro is modelled as PMIx's wildcard-rank rule. Its namespace-length limit is not modelled.
- Directive values other than strings are not modelled. The awaited key's value is always a string.
- The status unpack at line 974 passes the unload length as the item count. This is not modelled; one status is read.
- 32-bit wrap-around of room numbers, timeouts and sizes is not modelled. Integers are unbounded.
- Diagnostic output, help messages and error logging are not modelled. The one exception is the read of a record after its release at lines 879-881: it is modelled as the effect `Trace`.
- Memory handling is not modelled, apart from request releases and the payload's reference count. That covers allocation, copying, freeing of buffers, and the caddy's constructor and destructor.
- `Responses.Transmit` and `Responses.CaptureResult` require the request's record to be live. The source can release a request while its fetch is outstanding (eviction, fan-out or clear), and its fetch callback would then use a released record. That use is not modelled.
- `Engine.Init`: a hotel build that reports success is assumed to have been given a non-negative room count.
- The model is of a build against PMIx 4 or later. The search for the awaited key (lines 796-807) is compiled only for that version. Against PMIx 3 no query names a key, so the await-key paths (`Messages.RequiredKey`, `Inbound.RecvAwaitKey`, `Inbound.AwaitKeyProbesFreed`, `Eviction.EvictKeyArrived`, `Eviction.FetchRepeats`) do not arise there.
- A second answer for one request is not modelled. After a repeated fetch (`Eviction.FetchRepeats`), the first answer releases the record, and the second `_mdxresp` call would use the released record. `Responses.Transmit` requires a live record, so it does not cover that second call.
