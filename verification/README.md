# HTTP-TS player, modelled in Dafny

`HttpTSPlayer` plays an MPEG transport stream carried as the body of an
HTTP response. The HTTP client calls it back four times:
- `onResponseHeader` gives it the status and headers;
- `onResponseBody` gives it each chunk of the body;
- `onResponseCompleted` says the body ended normally;
- `onDisconnect` says the transfer failed.

The player does three things with these calls:
- It accepts only status 200 or 206. Any other status makes it ask the client to shut down.
- It checks the first body chunk for the TS sync byte 0x47 (ISO/IEC 13818-1, section 2.4.3.3).
- It passes every chunk, unchanged, either to a TS segmenter (split mode) or straight to the owner's packet sink.

Both the normal end and a disconnect are reported to the owner's completion sink.

The model has three layers:

- `HttpTsModel` (http_ts_model.dfy) treats the player as a value. `PlayerState`
  holds its fields. `Effect` lists what it does to the outside world: a
  shutdown request, a not-TS warning, segmenter input, a delivery the
  player itself makes through `onPacket`, or a completion-sink call. There is one function per callback, and its
  contract states what the callback does.
- `HttpTsSession` (http_ts_session.dfy) runs the player over a sequence of
  callbacks (`Run`). It proves properties of whole sessions: a rejected
  status forwards nothing, accepted chunks are forwarded once, whole and
  in order, split mode and pass-through mode forward the same bytes, and
  the sync-byte flag is set only by a sync byte. It also proves four
  concrete sessions from construction to the end.
- `Player.HttpTsPlayer` (http_ts_player.dfy) is the imperative object. Its
  fields are updated in place, and a ghost trace `Effects` records its
  effects. Each callback method is proved to change the fields and extend
  the trace exactly as its counterpart in `HttpTsModel` says: the callbacks
  match the functions of the same name, and `RouteChunk` matches `Route`.
  The sink setters are proved to change only their registration, as the
  matching `Step` cases do. `RequestShutdown`, `WarnNotTs` and
  `SegmentInputCall` stand for calls into collaborators, and each appends
  exactly one effect.

`StringFind` (string_find.dfy) models `std::string::find`. It proves that the
player's `find(x) == 0` test is a prefix test.

## Model

| member | source | states |
|---|---|---|
| StringFind.FindIsFirstOccurrence | src/Http/HttpTSPlayer.cpp:29 | `find` returns an index at which the pattern occurs, and no earlier index has an occurrence; it returns npos (None) exactly when the pattern occurs nowhere |
| StringFind.FindZeroIsPrefix | src/Http/HttpTSPlayer.cpp:29 | `find(p) == 0` holds if and only if `p` is a prefix of the string |
| HttpTsModel.ContentTypeIsTs | src/Http/HttpTSPlayer.cpp:28-29 | the Content-Type test accepts exactly the values that start with `video/mp2t` or `video/mpeg` |
| HttpTsModel.BadStatus | src/Http/HttpTSPlayer.cpp:25 | the shutdown reason for a rejected status has code `Err_other` and a message that contains the status |
| HttpTsModel.OnResponseHeader | src/Http/HttpTSPlayer.cpp:21-35 | the status is always stored. A status other than 200/206 returns 0, makes exactly one shutdown request with `BadStatus(status)` and leaves `isTsContent` alone. An accepted status returns -1 (unbounded body) with no effect, and afterwards `isTsContent` holds if and only if it held before or the Content-Type (empty when missing) is a TS media type, so the flag is never cleared. No other field changes |
| HttpTsModel.CheckFirstChunk | src/Http/HttpTSPlayer.cpp:41-49 | only a first chunk (`recved_size == size`) is examined. `isFirstPacketTs` becomes true if and only if it was already true or that first byte is 0x47. A first chunk with another first byte gives exactly one warning. Nothing is forwarded, and no other field changes |
| HttpTsModel.Route | src/Http/HttpTSPlayer.cpp:51-55 | in split mode the whole chunk goes once to the segmenter, and nothing is passed to `onPacket` directly (the segmenter's own calls to `onPacket` are not modelled). Otherwise the chunk goes once through `onPacket` to the packet sink if one is registered, and nowhere if none is. Nothing else happens |
| HttpTsModel.OnResponseBody | src/Http/HttpTSPlayer.cpp:37-56 | with a status other than 200/206 the state and the trace are unchanged, and any chunk is admitted, an empty one included. Otherwise only `isFirstPacketTs` can change, and it becomes true if and only if it was true or the chunk is a first chunk starting with 0x47 |
| HttpTsModel.BodyEffects | src/Http/HttpTSPlayer.cpp:37-56 | a body chunk warns once exactly when the response is accepted and the chunk is a first chunk not starting with 0x47. With an accepted status it forwards the whole chunk once: to the segmenter in split mode, otherwise directly through `onPacket` to the registered packet sink. This does not depend on the sync-byte outcome. It never shuts down and never completes |
| HttpTsModel.OnPacket | src/Http/HttpTSPlayer.cpp:72-76 | the bytes reach the packet sink exactly once if one is registered, and nothing happens otherwise; there is no other effect |
| HttpTsModel.EmitOnComplete | src/Http/HttpTSPlayer.cpp:66-70 | the given result reaches the completion sink exactly once if one is registered, and nothing happens otherwise; there is no other effect |
| HttpTsModel.OnResponseCompleted | src/Http/HttpTSPlayer.cpp:58-60 | the state is unchanged. The only effect is one completion with `Err_success` and "play completed", and only when a completion sink is registered |
| HttpTsModel.OnDisconnect | src/Http/HttpTSPlayer.cpp:62-64 | the state is unchanged. The only effect is one completion carrying the client's exception unchanged, and only when a completion sink is registered |
| HttpTsSession.SplitTsNeverChanges | src/Http/HttpTSPlayer.cpp:15-16 | no sequence of callbacks changes the split mode chosen at construction |
| HttpTsSession.RejectedStep | src/Http/HttpTSPlayer.cpp:38-40 | after a rejected status, one non-header callback forwards nothing, warns about nothing, requests no shutdown and changes at most the sink registrations |
| HttpTsSession.RejectedStatusForwardsNothing | src/Http/HttpTSPlayer.cpp:38-40 | after a rejected status, and until another header arrives, nothing is passed to the segmenter or directly to `onPacket`. There are no warnings and no shutdowns, and only the sink registrations can change |
| HttpTsSession.RejectedResponse | src/Http/HttpTSPlayer.cpp:21-40 | a session that starts with a rejected status and has no later header makes exactly one shutdown request, with `BadStatus(status)`. No later chunk is forwarded, the status is stored, and `isTsContent` and `isFirstPacketTs` keep their values |
| HttpTsSession.AcceptedStep | src/Http/HttpTSPlayer.cpp:51-64 | with an accepted status, one body, end or disconnect callback forwards the body chunk (if it is one) to exactly one place, chosen by the mode. Only `isFirstPacketTs` can change |
| HttpTsSession.AcceptedChunksForwardedInOrder | src/Http/HttpTSPlayer.cpp:51-55 | with an accepted status, no later header and neither sink changed, the segmenter inputs (split mode) or the direct `onPacket` deliveries (pass-through with a sink) are exactly the body chunks, in order and unchanged. Nothing is passed to `onPacket` directly in split mode (the segmenter's own calls are not modelled), and nothing reaches the segmenter in pass-through mode |
| HttpTsSession.SplitAndPassThroughStep | src/Http/HttpTSPlayer.cpp:21-64 | with a packet sink registered, one callback other than a packet-sink change gives segmenter input in split mode equal to the direct `onPacket` delivery in pass-through mode, and leaves the two players equal apart from the mode |
| HttpTsSession.SplitAndPassThroughForwardSameBytes | src/Http/HttpTSPlayer.cpp:21-84 | with a packet sink registered and never replaced, any sequence of callbacks (headers, accepted or rejected, included) gives segmenter inputs in split mode equal to the direct `onPacket` deliveries in pass-through mode, and the two players end in the same state apart from the mode |
| HttpTsSession.FirstPacketTsNeedsSyncByte | src/Http/HttpTSPlayer.cpp:41-49 | if `isFirstPacketTs` is true after a session, it was already true or some body call was a first chunk starting with 0x47 |
| HttpTsSession.FirstPacketTsNeverCleared | src/Http/HttpTSPlayer.cpp:41-45 | once `isFirstPacketTs` is true, no sequence of callbacks makes it false again |
| HttpTsSession.TerminalStep | src/Http/HttpTSPlayer.cpp:58-70 | with a completion sink registered, one callback other than a completion-sink change completes once if it is an end or a disconnect, and not at all otherwise; the sink stays registered |
| HttpTsSession.EveryTerminalCallCompletes | src/Http/HttpTSPlayer.cpp:58-70 | with a completion sink registered and no `setOnComplete` call (packet-sink changes are allowed), the number of completions equals the number of end and disconnect callbacks. Nothing limits a session to one completion |
| HttpTsSession.Registered | src/Http/HttpTSPlayer.cpp:78-84 | registering both sinks on a fresh player gives the fresh state with both sinks registered |
| HttpTsSession.ScenarioTsResponseCompletes | src/Http/HttpTSPlayer.cpp:21-60 | 200 with `video/mp2t`, then a 188-byte chunk starting with 0x47, then the end: the sink receives the packet whole, then success is reported, and both flags are set |
| HttpTsSession.SyncChunkThenEnd | src/Http/HttpTSPlayer.cpp:41-60 | the body part of that session, from the state the 200 header leaves |
| HttpTsSession.ScenarioNotFound | src/Http/HttpTSPlayer.cpp:21-40 | 404 followed by a chunk: the only effect is the shutdown request with message "bad http status code:404" |
| HttpTsSession.ScenarioNotSyncByteStillDelivered | src/Http/HttpTSPlayer.cpp:37-60 | 206, then a first chunk that does not start with 0x47, then the end: a warning, the chunk delivered anyway, then success. `isFirstPacketTs` stays false |
| HttpTsSession.NotSyncChunkThenEnd | src/Http/HttpTSPlayer.cpp:41-60 | the body part of that session, from the state the 206 header leaves |
| HttpTsSession.ScenarioDisconnectMidBody | src/Http/HttpTSPlayer.cpp:37-64 | split mode, 200, a first chunk, then a disconnect: the chunk goes to the segmenter, then the client's exception is reported as it is |
| Player.HttpTsPlayer.constructor | src/Http/HttpTSPlayer.cpp:15-19 | a new player has the given split mode, no status, both flags false, no sinks and an empty trace |
| Player.HttpTsPlayer.RequestShutdown | src/Http/HttpTSPlayer.cpp:25 | appends one shutdown request with the given reason to the trace |
| Player.HttpTsPlayer.WarnNotTs | src/Http/HttpTSPlayer.cpp:47 | appends one not-TS warning to the trace |
| Player.HttpTsPlayer.SegmentInputCall | src/Http/HttpTSPlayer.cpp:52 | appends one segmenter input with the given bytes to the trace |
| Player.HttpTsPlayer.OnResponseHeader | src/Http/HttpTSPlayer.cpp:21-35 | updates the fields, returns the body length and extends the trace exactly as `HttpTsModel.OnResponseHeader` |
| Player.HttpTsPlayer.OnResponseBody | src/Http/HttpTSPlayer.cpp:37-56 | updates the fields and extends the trace exactly as `HttpTsModel.OnResponseBody` |
| Player.HttpTsPlayer.AcceptedBody | src/Http/HttpTSPlayer.cpp:41-55 | on an accepted response, updates `isFirstPacketTs` and the trace as `HttpTsModel.CheckFirstChunk` followed by `HttpTsModel.Route` |
| Player.HttpTsPlayer.CheckFirstChunk | src/Http/HttpTSPlayer.cpp:41-49 | updates `isFirstPacketTs` and the trace exactly as `HttpTsModel.CheckFirstChunk` |
| Player.HttpTsPlayer.RouteChunk | src/Http/HttpTSPlayer.cpp:51-55 | extends the trace exactly as `HttpTsModel.Route` |
| Player.HttpTsPlayer.OnResponseCompleted | src/Http/HttpTSPlayer.cpp:58-60 | leaves the fields alone and extends the trace exactly as `HttpTsModel.OnResponseCompleted` |
| Player.HttpTsPlayer.OnDisconnect | src/Http/HttpTSPlayer.cpp:62-64 | leaves the fields alone and extends the trace exactly as `HttpTsModel.OnDisconnect` |
| Player.HttpTsPlayer.EmitOnComplete | src/Http/HttpTSPlayer.cpp:66-70 | appends one completion with the given exception if a completion sink is registered, and nothing otherwise |
| Player.HttpTsPlayer.OnPacket | src/Http/HttpTSPlayer.cpp:72-76 | appends one packet delivery with the given bytes if a packet sink is registered, and nothing otherwise |
| Player.HttpTsPlayer.SetOnComplete | src/Http/HttpTSPlayer.cpp:78-80 | only the completion-sink registration changes, and it becomes the given one |
| Player.HttpTsPlayer.SetOnPacket | src/Http/HttpTSPlayer.cpp:82-84 | only the packet-sink registration changes, and it becomes the given one |

## Behaviour worth knowing

- Nothing limits a session to one completion. Every `onResponseCompleted`
  and every `onDisconnect` reaches a registered sink
  (src/Http/HttpTSPlayer.cpp:58-70); `EveryTerminalCallCompletes` proves this.
- A rejected status only requests a shutdown and returns 0
  (src/Http/HttpTSPlayer.cpp:25-26). Whether the client then calls
  `onDisconnect` is outside this model.

## Left out

- Choosing the event poller (src/Http/HttpTSPlayer.cpp:18) is scheduling plumbing with no effect on the player's state.
- The TS segmenter is external. Its packet-alignment algorithm, and the callback through which it calls `onPacket` (src/Http/HttpTSPlayer.cpp:17), are not modelled. Segmenter input is recorded as an effect, and the model does not show what reaches the packet sink in split mode.
- The HTTP client is not modelled: connections, header parsing and what `shutdown` does. A shutdown request is recorded as an effect.
- The warning is recorded as an effect. Its log text and the logging system are left out.
- Callbacks are modelled as "registered or not". Telling two different non-empty callbacks apart, and `std::function` mechanics, are left out.
- Header names are matched exactly, as map keys. The client's header map ignores case; that is not modelled. A missing key reads as the empty string. The side effect of `operator[]` on the client's map (it inserts the missing key) is not modelled.
- `total_size` is never read by the player. The body callbacks take it and ignore it.
- Sizes are unbounded naturals rather than `size_t`. `size` is the length of the byte sequence.
- HttpTsModel.OnResponseBody, HttpTsModel.BodyEffects and Player.HttpTsPlayer.OnResponseBody require a non-empty chunk when the status is accepted and `recved_size == size`, because the code then reads `buf[0]`. An empty first chunk of an accepted response would be an out-of-bounds read in the code, so the model does not cover it. Under a rejected status the code returns before that read, and the model admits every chunk. HttpTsModel.CheckFirstChunk, Player.HttpTsPlayer.AcceptedBody and Player.HttpTsPlayer.CheckFirstChunk are reached only on the accepted path, and they carry the same requirement.
- HttpTsSession.CallOk asks every body call of a session for a non-empty first chunk, whatever the status. This keeps the condition independent of the state, so sessions in which a rejected response is followed by an empty first chunk are outside the session lemmas, though not outside `HttpTsModel.OnResponseBody`.
- HttpTSPlayer.h is not part of this model. The initial values are taken to be an empty status and both flags false.
- `SockException` is modelled as a code and a message. Its other contents are left out.
