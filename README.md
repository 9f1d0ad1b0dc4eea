# spectra-vision streaming core, modelled in Dafny

spectra-vision is a Node.js web app for Ring doorbells and cameras. This
project models the part that keeps state around the camera's live call:

- **HLS relay controller** (`FFmpegStreamer`, module `Streaming`). It asks the
  camera to stream into a rolling HLS playlist named after a session id. It
  then polls for that playlist every 500 ms, and it stamps the viewer's
  microphone frames as Opus RTP packets on the call's uplink.
- **G.711 mu-law encoder** (`linearToMuLaw`, module `MuLaw`). The source
  defines it but never calls it. The model keeps it because its bit
  arithmetic is a self-contained, checkable algorithm.
- **Session manager** (module `Server`). These are the Socket.IO handlers of
  one browser connection in `server.js`. Each connection holds at most one
  streamer and shares the process-wide `activeSessions` registry.
- **Event-polling dedup** (module `EventPolling`). The fallback poller
  remembers the last event id per camera, uses the first id seen as a
  baseline, and announces a new event younger than 120 s.
- **List endpoints** (module `Listings`). These are the newest-first selection
  of `/api/snapshots-list` (at most 3 `.jpg` files) and `/api/events` (at
  most 20 events).
- **The alternative bridges**: `StreamHandler` (module `SipStreaming`) and
  `SimpleWebRtcBridge` (module `WebRtcBridge`).
- **A scenario** (module `Scenario`) walks one connection through all of it:
  start, microphone, three frames, stop, and a frame after stop.

The stateful code is modelled as Dafny classes whose methods update the same
fields as the source. `FFmpegStreamer`, `Connection`, `StreamHandler` and
`SimpleWebRtcBridge` keep a `Valid()` invariant. `SessionRegistry` and
`EventPoller` need none: any value of their fields is a valid state.
Three kinds of input become plain method parameters:

- Every fallible external call is a parameter holding its outcome: an
  `Ok`/`Err` result, an option or a flag. This covers the device API,
  `fs.existsSync`/`statSync`, the Opus encoder, the RTP send, the SIP and
  WebRTC sessions, and `getCameras`/`getEvents`.
- The clock (`Date.now()`) is a parameter, except in `waitForPlaylist`,
  whose checks are placed on a 500 ms grid (see "## Left out").
- `Math.random()` is a parameter in `[0, 1)`.

Ghost fields record what the device side sees: the `streamVideo` requests,
the `stop` calls on live calls, the RTP packets sent since the microphone was
last activated, the SIP sessions created and stopped, and the WebRTC
terminations and answers. A JavaScript error becomes `Err(message)`.

Where the source's behaviour is surprising, the model follows the code:

- When the playlist never appears, `start` throws, but it leaves the device
  call live. `FFmpegStreamer.Start` states this: `liveCall` is still
  `Some(call)` on the `PLAYLIST_NOT_CREATED` path. The call is stopped only
  by the connection's next start-stream, stop-stream or disconnect
  (`Connection.Retire`, `StopStream`, `Disconnect`).
- `deactivateMicrophone` does nothing. It leaves the encoder and the RTP
  counters in place, so `canSendAudio` stays true while the call is up.
- The RTP sequence number and timestamp are plain counters in the source. The
  model proves them exact (`rtpTimestamp == 960 * rtpSequence`) and does not
  wrap them, as the source's counters never wrap.

## Model

| member | source | states |
|---|---|---|
| `Common.NatToString` | src/ffmpeg-streamer.js:79-81 | `Date.now()` printed in decimal: non-empty, digits only, one digit exactly below 10 |
| `Common.NatToStringInjective` | src/ffmpeg-streamer.js:79-81 | distinct session ids print differently |
| `MuLaw.Encode` | src/ffmpeg-streamer.js:22-41 | a 16-bit sample's mu-law code is a byte, below 0x80 exactly when the sample is negative (inverted sign bit) |
| `MuLaw.LinearToMuLaw` | src/ffmpeg-streamer.js:22-41 | the procedure: sign by shift and mask, clip, bias, segment search loop and inverted byte; proved equal to `Encode` on every 16-bit sample |
| `MuLaw.EncodeZero` | src/ffmpeg-streamer.js:22-41 | silence (0) encodes to 0xFF |
| `MuLaw.EncodeClips` | src/ffmpeg-streamer.js:25 | every magnitude at or above 32635 (including -32768) encodes as +-32635 does |
| `MuLaw.EncodeMonotone` | src/ffmpeg-streamer.js:28-40 | segments are ordered: a larger non-negative sample never has a larger code, and a more negative sample never has a larger code |
| `Streaming.ArtifactsUnique` | src/ffmpeg-streamer.js:79-81 | two different session ids never share a playlist file name, a segment pattern or the playlist URL built from the same id (line 134) |
| `Streaming.FFmpegStreamer.constructor` | src/ffmpeg-streamer.js:51-58 | a new streamer has no call, is inactive, has no playlist and no encoder |
| `Streaming.FFmpegStreamer.Start` | src/ffmpeg-streamer.js:69-163 | while active it returns the current playlist and makes no new call; otherwise it makes exactly one `streamVideo` request naming this session's playlist and segments; if the call fails, that error is returned and nothing else changes; if the call is up, the playlist is `/streams/stream_<id>.m3u8`, success is exactly readiness within 10 s, a timeout fails with "HLS playlist not created - streaming may have failed", and only success subscribes to call-ended; `isActive` holds exactly on success |
| `Streaming.FFmpegStreamer.WaitForPlaylist` | src/ffmpeg-streamer.js:269-289 | true exactly when a check before `maxWaitMs` sees the file with more than 50 bytes; check k is at 500·k ms, the first ready one is taken, and a false result comes at most one interval past the limit |
| `Streaming.FFmpegStreamer.ActivateMicrophone` | src/ffmpeg-streamer.js:165-194 | succeeds exactly with a live call, an activated speaker, a new encoder and a set bitrate; success installs a 48 kHz mono encoder at 24 kbit/s, resets sequence and timestamp to 0, and draws the SSRC as `floor(random * 0xFFFFFFFF)`; a failed `setBitrate` leaves the new encoder without a bitrate and the counters as they were; any earlier failure changes nothing on the uplink |
| `Streaming.FFmpegStreamer.DeactivateMicrophone` | src/ffmpeg-streamer.js:196-199 | changes nothing |
| `Streaming.FFmpegStreamer.SendAudioData` | src/ffmpeg-streamer.js:205-241 | without a call, an encoder or an encoded frame it is a no-op; otherwise the sequence number goes up by 1 and the timestamp by 960, and if the send succeeds the uplink gains one packet (version 2, payload type 111, the old sequence and timestamp, the session SSRC, no marker) carrying the encoded frame; the uplink stays stamped and strictly increasing |
| `Streaming.FFmpegStreamer.CanSendAudio` | src/ffmpeg-streamer.js:243-246 | true exactly when there is a live call |
| `Streaming.FFmpegStreamer.Stop` | src/ffmpeg-streamer.js:251-264 | afterwards there is no live call and the streamer is inactive; the old call, if there was one, is stopped exactly once; a stop error is swallowed |
| `Streaming.FFmpegStreamer.Cleanup` | src/ffmpeg-streamer.js:294-297 | only clears `isActive` |
| `Streaming.FFmpegStreamer.OnCallEnded` | src/ffmpeg-streamer.js:147-153 | the subscription deactivates the streamer and runs the end callback exactly when one is set |
| `Streaming.FFmpegStreamer.SetOnStreamEnd` | src/ffmpeg-streamer.js:302-304 | installs the end callback and changes nothing else |
| `Streaming.FFmpegStreamer.GetState` | src/ffmpeg-streamer.js:309-315 | reports `isActive`, the camera name and the playlist URL |
| `Server.SessionRegistry.constructor` | server.js:42 | the map of active sessions starts empty |
| `Server.FindCamera` | server.js:448-449 | the first camera whose printed id equals the requested one; none exactly when no id matches |
| `Server.Connection.constructor` | server.js:435-439 | a new connection has no streamer and no emitted messages |
| `Server.Connection.AtMostOneRelay` | server.js:456-462 | of all streamers a connection has created, at most one holds a live call |
| `Server.Connection.StartStream` | server.js:442-486 | a failed lookup or an unknown device emits `stream-error` and leaves the streamer alone; otherwise the old streamer is stopped first and a fresh one with an end callback is started, whose playlist is this session's once the call is up; success emits `stream-started` with mode "hls" and the playlist URL, leaves the streamer subscribed to call-ended and registers it under the socket id; failure leaves it unsubscribed, emits `stream-error` with the call's message or the timeout message and registers nothing |
| `Server.NewRelay` | server.js:462-470 | a fresh streamer with its end callback installed, started once: active and subscribed exactly when the call is up and the playlist appears in time, with that session's playlist URL |
| `Server.Connection.Launch` | server.js:456-481 | as `StartStream` after the camera was found |
| `Server.Connection.Retire` | server.js:457-459 | the previous streamer, if any, is stopped and keeps no live call |
| `Server.Connection.ActivateMic` | server.js:489-508 | no streamer gives `mic-error` "No active stream"; otherwise `mic-activated` exactly when activation succeeded, else `mic-error` "Failed to activate microphone"; the relay is untouched; on success the encoder is configured, the RTP state reset and the SSRC drawn from `random`; a failed `setBitrate` keeps the new encoder and the RTP state; an earlier failure leaves the encoder and the RTP state as they were |
| `Server.Connection.DeactivateMic` | server.js:511-518 | always emits `mic-deactivated` |
| `Server.Connection.AudioData` | server.js:521-549 | every frame is counted; a frame is forwarded exactly when the streamer has a live call, otherwise dropped with the streamer unchanged; a forwarded frame advances the counters and the uplink as `SendAudioData` states and never changes the relay (call, activity, playlist, subscription) |
| `Server.Connection.StopStream` | server.js:552-559 | stops the streamer once, clears it, removes the socket from the registry, and always emits `stream-stopped` |
| `Server.Connection.Disconnect` | server.js:562-568 | stops the streamer once and removes the registry entry; the streamer variable keeps the stopped streamer |
| `Server.Connection.CallEnded` | server.js:465-467 | emits `stream-ended` exactly when the current streamer's call-ended handler fires; the call is not stopped |
| `EventPolling.EventId` | server.js:354 | a truthy `ding_id_str`; otherwise a truthy `id`; none when neither is truthy |
| `EventPolling.EventTime` | server.js:358-366 | a missing or falsy `created_at` (no value, `""`, `0`) means now; other text is what `new Date` parses, invalid when it does not parse; a number above 1e12 is milliseconds, any other non-zero number is seconds; a millisecond value outside ±8.64e15 is an Invalid Date |
| `EventPolling.SafeAgeMs` | server.js:367-368 | the age is now minus the event time; an event whose time is invalid has age 0 |
| `EventPolling.Decide` | server.js:352-379 | no events or a failed fetch changes nothing; a missing or already-seen id changes nothing; a new id is always recorded; the first id per camera is only a baseline; an announcement happens exactly for a new id past the baseline that is younger than 120 s; it carries the camera, the kind (default "unknown") and the event time |
| `EventPolling.Notify` | server.js:383-408 | `ding` gives a doorbell ring, `motion` a motion detection, any other kind nothing |
| `EventPolling.PollCameraAsWritten` | server.js:373-404 | the baseline update precedes the announcement: the last-seen map is the dedup decision's; nothing is emitted without an announcement or when the event's Date is invalid; otherwise the ding or motion notification for the announced camera, kind and time |
| `EventPolling.PollCamera` | server.js:373-404 | the corrected announcement: the dedup decision is unchanged, and an event with an invalid Date is announced with the current time |
| `EventPolling.PollOne` | server.js:373-404 | either step keeps the dedup decision's last-seen map and emits nothing without an announcement |
| `EventPolling.PollCameraIdempotent` | server.js:373-374 | as written and corrected, polling the same events again announces nothing and changes nothing |
| `EventPolling.InvalidTimeIsSilenced` | server.js:367-389 | a new ding with an unparseable time has age 0, yet as written nothing is emitted; corrected, it rings |
| `EventPolling.PollAll` | server.js:345-420 | one poll visits the cameras in order, each from the map its predecessor left, and concatenates their notifications; as written or corrected |
| `EventPolling.CorrectionKeepsLastSeen` | server.js:373-374 | the correction changes only what is emitted, never the last-seen map |
| `EventPolling.FirstRunIsBaseline` | server.js:376-377 | the first poll over distinct cameras announces nothing and records only their ids, as written and corrected |
| `EventPolling.EventPoller.constructor` | server.js:336 | the last-seen map starts empty |
| `EventPolling.EventPoller.PollEvents` | server.js:341-424 | the loop as written: a failed `getCameras` changes nothing; otherwise the map and the broadcasts are those of `PollAll` with the as-written step |
| `Listings.InsertDesc` | server.js:159 | insertion keeps the multiset and the newest-first order |
| `Listings.SortNewestFirst` | server.js:159 | the stable sort is a permutation of its input, ordered by decreasing time |
| `Listings.Newest` | server.js:159-160 | `sort(...).slice(0, n)` keeps min(n, length) elements, newest first, drawn from the input (all of it when it fits), and nothing left out is newer than anything kept |
| `Listings.JpgEntries` | server.js:152-158 | only `.jpg` files, each as filename, `/snapshots/<name>` and modification time, one entry per `.jpg` file listed |
| `Listings.JpgEntriesMultiplicity` | server.js:152-158 | each listed file gives its entry as often as it is listed when it is a `.jpg`, and never otherwise |
| `Listings.SnapshotsList` | server.js:139-164 | a missing directory gives `[]`; a read error gives 500 "Failed to list snapshots"; otherwise min(3, number of `.jpg` files) entries, newest first, a sub-multiset of the `.jpg` entries, with no newer `.jpg` left out, and all of them when there are fewer than 3 |
| `Listings.AllEvents` | server.js:73-89 | every event of every camera whose fetch succeeded, copied with its camera's id and name, and nothing else; as many as were fetched |
| `Listings.EventsList` | server.js:69-97 | a failed `getCameras` gives 500 "Failed to fetch events"; otherwise min(20, total) events, newest first, drawn from the fetched ones, with nothing newer left out |
| `SipStreaming.StreamHandler.constructor` | src/stream-handler.js:5-10 | no session, inactive, no ffmpeg process |
| `SipStreaming.StreamHandler.StartStream` | src/stream-handler.js:12-53 | while active it replies "Stream already active" and creates no session; a failed creation replies its error and keeps nothing; a created session is kept and subscribed; it is active exactly when `start` resolved, and that gives "Stream started" with `Date.now()` as the session id; it never throws |
| `SipStreaming.StreamHandler.StopStream` | src/stream-handler.js:55-72 | afterwards no session, no ffmpeg process and inactive; the old session, if any, is stopped once; errors are swallowed |
| `SipStreaming.StreamHandler.GetSdpOffer` | src/stream-handler.js:75-80 | null exactly without a session, otherwise its SDP |
| `SipStreaming.StreamHandler.SetStreamEndCallback` | src/stream-handler.js:83-85 | installs the end callback and changes nothing else |
| `SipStreaming.StreamHandler.OnCallEnded` | src/stream-handler.js:28-34 | the subscription deactivates the handler and runs the end callback exactly when one is set |
| `WebRtcBridge.TerminationOf` | simple-webrtc-bridge.js:95-99 | `stop` when the session has it, else `end`, else nothing |
| `WebRtcBridge.SimpleWebRtcBridge.constructor` | simple-webrtc-bridge.js:14-19 | no session, inactive |
| `WebRtcBridge.SimpleWebRtcBridge.StartSession` | simple-webrtc-bridge.js:26-68 | an active session is stopped first, and only then; a failed creation rethrows and keeps nothing new; a created session is kept; it is active exactly when `start` gave an offer, and then returns `{type: "offer", sdp}` and subscribes when the session has `onCallEnded`; a failed `start` rethrows its error |
| `WebRtcBridge.SimpleWebRtcBridge.SetAnswer` | simple-webrtc-bridge.js:74-87 | without a session it throws "Session not started" and passes nothing on; otherwise the answer goes to `acceptAnswer`, whose error is rethrown |
| `WebRtcBridge.SimpleWebRtcBridge.Stop` | simple-webrtc-bridge.js:92-107 | afterwards no session and inactive; the old session is terminated once, by `stop` in preference to `end`; errors are swallowed |
| `WebRtcBridge.SimpleWebRtcBridge.SetOnSessionEnd` | simple-webrtc-bridge.js:112-114 | installs the end callback and changes nothing else |
| `WebRtcBridge.SimpleWebRtcBridge.OnCallEnded` | simple-webrtc-bridge.js:50-56 | the subscription deactivates the bridge and runs `onSessionEnd` exactly when one is set |
| `WebRtcBridge.SimpleWebRtcBridge.GetState` | simple-webrtc-bridge.js:119-124 | reports `isActive` and the camera name |
| `Scenario.StartedConnection` | server.js:442-481 | a playlist of 120 bytes at the second check gives `stream-started` with mode "hls" and `/streams/stream_1700.m3u8` |
| `Scenario.ThreeFrames` | src/ffmpeg-streamer.js:220-232 | three frames after activation go out with sequence numbers 0, 1, 2 and timestamps 0, 960, 1920 |
| `Scenario.TwoWayAudioSession` | server.js:442-559 | start, activate, three frames, stop: the replies are `stream-started`, `mic-activated` and `stream-stopped`, three packets are stamped 0/0, 1/960, 2/1920, and the frame after stop is dropped; the live call is stopped exactly once |
| `Scenario.CameraHangsUp` | server.js:465-467 | a started stream whose camera hangs up emits `stream-ended`, and the relay is no longer active; the call is not stopped |

## Left out

- The asynchrony between handlers is not modelled. Each handler runs to
  completion, so a `start()` racing a `stop()` on the same connection is
  outside the model.
- Subscriptions of calls or sessions that were stopped or replaced are
  dropped. A call-ended event that stopping a call raises is therefore not
  modelled; it would re-run the session's cleanup and its end callback.
- The filesystem is left out: `mkdirSync` of the output directory, the
  debug dump in `start`, and snapshot saving on polled events. These are I/O.
- `returnAudioStream` is only logged in the source and is not modelled.
- `path.join` is modelled as `dir + "/" + name`, without path normalisation.
- The ffmpeg child process, the Opus codec and werift's RTP serialisation are
  foreign code. The model keeps their inputs: the ffmpeg arguments, the PCM
  frame, and the RTP header fields.
- `Streaming.FFmpegStreamer.SendAudioData`: the header fields are the
  source's unbounded counters. Whatever the RTP serialiser does with values
  beyond 16 and 32 bits is outside the model.
- `MuLaw.LinearToMuLaw`: it is specified for 16-bit samples only, which is
  the input its caller is meant to pass; the source never calls it.
- `Server.Connection.ActivateMic`: the branch that catches an exception from
  `activateMicrophone` is not modelled. That method catches its own errors,
  so the branch cannot run.
- `Listings.SnapshotsList`: `statSync` throwing inside the `readdir`
  callback is not modelled. It would be an uncaught exception, not a reply.
- `Listings.EventsList`: `created_at` is taken as an already-parsed time in
  milliseconds. An unparseable value makes the comparator return NaN, which
  gives an implementation-defined order that is not modelled.
- Stability of `Listings.SortNewestFirst` is a property of its definition
  and is not stated as a lemma.
- Timestamps in notifications are kept as milliseconds. The
  `toISOString()` text is not modelled, except for its RangeError on an
  Invalid Date.
- Event ids are strings. A numeric `id` is compared as its printed form,
  whereas the source compares it with `!==`.
- `setInterval` scheduling of the poller and the other intervals in
  server.js are not modelled. The initial baseline run is modelled
  (`EventPolling.FirstRunIsBaseline`).
- `webrtc-bridge.js` is not part of this model: it is a thin HTTP wrapper.
- `EventPolling.EventPoller.PollEvents` runs the loop as written. The
  corrected loop is the function `EventPolling.PollAll` with `corrected`
  set; no method runs it.
- `Streaming.FFmpegStreamer.constructor`: `rtpSequence`, `rtpTimestamp` and
  `ssrc` start at 0. In the source they are undefined until
  `activateMicrophone` sets them (src/ffmpeg-streamer.js:184-186). When a
  first activation fails at `setBitrate`, the encoder is kept but the
  counters are never set, and the source stamps NaN and undefined headers
  where the model stamps `OpusHeader(0, 0, 0)`.
- `Streaming.FFmpegStreamer.WaitForPlaylist`: check k is taken to happen at
  exactly 500·k ms. The source reads `Date.now()` for each check and sleeps
  500 ms between them, so file-system time and timer lateness push its checks
  later and it can make fewer checks before the limit than the model does.
  A `statSync` that throws after `existsSync` saw the file is not modelled
  either; in the source it makes `start` reject.
- `Listings.JpgEntries`: the directory order of the entries is not stated.
  It shows only in the order of snapshots with equal modification times.
- `Listings.SnapshotsList`: `mtimeMs` is an integer here, whereas
  `statSync(...).mtimeMs` is a fractional number of milliseconds. Only the
  order of the times matters to the selection.

## Findings

| source | as written | input that shows it | evidently intended | confidence | as-written member | corrected member |
|---|---|---|---|---|---|---|
| server.js:358-368, 386-404 | `eventTime.toISOString()` throws a RangeError for an Invalid Date. The per-camera catch swallows it after `lastSeenEvents` was already updated, so no notification is emitted. | a new `ding` with `created_at` `"not a date"` past the baseline: `safeAge` is 0, yet nothing is emitted and the event is marked seen | `safeAge` maps a NaN age to 0, which treats such an event as fresh, so it should be announced, for example with the current time | not executed | `EventPolling.PollCameraAsWritten` (shown by `EventPolling.InvalidTimeIsSilenced`) | `EventPolling.PollCamera` (run by `EventPolling.PollAll` with `corrected` set) |
