/** The per-connection Session Manager of server.js: the socket handlers for
    start-stream, stop-stream, activate-mic, deactivate-mic, audio-data and
    disconnect, each run to completion, around one nullable `FFmpegStreamer`
    and the process-wide `activeSessions` registry.

    `outbox` is what the handlers emit on the socket.  Every streamer the
    connection has constructed is in the ghost set `created`; `Valid` keeps
    all of them but the current one stopped, so a connection never holds two
    live calls. */
module Server {
  import opened Common
  import opened Streaming

  datatype ServerMessage =
    | StreamStarted(deviceId: string, deviceName: string, mode: string, playlistUrl: string)
    | StreamError(error: string)
    | StreamEnded
    | StreamStopped
    | MicActivated
    | MicError(error: string)
    | MicDeactivated

  /** What became of one audio frame. */
  datatype FrameFate = Forwarded | Dropped

  const DEVICE_NOT_FOUND: string := "Device not found"
  const NO_ACTIVE_STREAM: string := "No active stream"
  const MIC_FAILED: string := "Failed to activate microphone"
  const HLS_MODE: string := "hls"

  /** `cameras.find(c => c.id.toString() === deviceId)`: the first camera whose
      printed id is the requested one. */
  function FindCamera(cameras: seq<Camera>, deviceId: string): (r: Option<Camera>)
    ensures r.None? <==> forall i :: 0 <= i < |cameras| ==> NatToString(cameras[i].id) != deviceId
    ensures r.Some? ==> exists i :: 0 <= i < |cameras| && cameras[i] == r.value
                                   && NatToString(r.value.id) == deviceId
                                   && forall j :: 0 <= j < i ==> NatToString(cameras[j].id) != deviceId
  {
    if cameras == [] then None
    else if NatToString(cameras[0].id) == deviceId then Some(cameras[0])
    else
      var r := FindCamera(cameras[1..], deviceId);
      assert forall i :: 1 <= i < |cameras| ==> cameras[i] == cameras[1..][i - 1];
      r
  }

  /** A new streamer for `camera`, with its end callback installed, started
      for session `now`. */
  method NewRelay(camera: Camera, now: nat, call: Result<LiveCall>, obs: seq<FileStat>)
    returns (s: FFmpegStreamer, result: Result<string>)
    ensures fresh(s) && s.Valid() && s.hasOnStreamEnd
    ensures s.camera == camera && s.outputDir == DEFAULT_OUTPUT_DIR
    ensures s.streamRequests == [HlsRequest(DEFAULT_OUTPUT_DIR, now)] && s.stopCalls == []
    ensures s.liveCall == (if call.Ok? then Some(call.value) else None)
    ensures s.hlsPlaylist == (if call.Ok? then Some(PlaylistUrl(now)) else None)
    ensures s.isActive <==> result.Ok?
    ensures s.callEndedSubscribed <==> result.Ok?
    ensures result.Ok? <==> call.Ok? && ReadyWithin(obs, DEFAULT_MAX_WAIT_MS)
    ensures result.Ok? ==> result.value == PlaylistUrl(now)
    ensures result.Err? ==> result.message == (if call.Err? then call.message else PLAYLIST_NOT_CREATED)
  {
    s := new FFmpegStreamer(camera, DEFAULT_OUTPUT_DIR);
    s.SetOnStreamEnd();
    result := s.Start(now, call, obs);
  }

  /** `activeSessions`, shared by all connections and keyed by socket id. */
  class SessionRegistry {
    var sessions: map<string, FFmpegStreamer>

    constructor ()
      ensures sessions == map[]
    {
      sessions := map[];
    }
  }

  class Connection {
    const socketId: string
    const registry: SessionRegistry
    var streamer: FFmpegStreamer?
    var audioPacketCount: nat
    var outbox: seq<ServerMessage>
    ghost var created: set<FFmpegStreamer>
    ghost var frames: seq<FrameFate>

    ghost predicate Valid()
      reads this, registry, created
    {
      && (streamer != null ==> streamer in created && streamer.Valid() && streamer.hasOnStreamEnd)
      && (forall s | s in created && s != streamer :: s.liveCall.None? && !s.isActive)
      && (socketId in registry.sessions ==> registry.sessions[socketId] in created)
      && audioPacketCount == |frames|
    }

    /** No two streamers of this connection hold a live call at once. */
    lemma AtMostOneRelay()
      requires Valid()
      ensures forall s, t | s in created && t in created && s.liveCall.Some? && t.liveCall.Some? :: s == t
    {
    }

    /** `io.on('connection')`: a fresh socket id, no streamer. */
    constructor (socketId: string, registry: SessionRegistry)
      requires socketId !in registry.sessions
      ensures Valid()
      ensures this.socketId == socketId && this.registry == registry
      ensures streamer == null && audioPacketCount == 0 && outbox == [] && created == {} && frames == []
    {
      this.socketId := socketId;
      this.registry := registry;
      streamer := null;
      audioPacketCount := 0;
      outbox := [];
      created := {};
      frames := [];
    }

    /** `start-stream`: `cameras` is the outcome of `getCameras`, `now` the
        value of `Date.now()` inside `start`, `call` the outcome of
        `streamVideo`, `obs` what the readiness checks see and `stopOk` the
        outcome of stopping the previous live call. */
    method StartStream(deviceId: string, cameras: Result<seq<Camera>>, now: nat, call: Result<LiveCall>,
                       obs: seq<FileStat>, stopOk: bool)
      requires Valid()
      modifies this, registry, streamer
      ensures Valid()
      ensures audioPacketCount == old(audioPacketCount) && frames == old(frames)
      // Unknown device or failed lookup: the current streamer is left as it was.
      ensures cameras.Err? || FindCamera(cameras.value, deviceId).None? ==>
                && streamer == old(streamer) && created == old(created)
                && registry.sessions == old(registry.sessions)
                && (old(streamer) != null ==> unchanged(old(streamer)))
                && outbox == old(outbox) + [StreamError(if cameras.Err? then cameras.message else DEVICE_NOT_FOUND)]
      // Known device: the previous streamer is stopped before a new one starts.
      ensures cameras.Ok? && FindCamera(cameras.value, deviceId).Some? ==>
                var camera := FindCamera(cameras.value, deviceId).value;
                && streamer != null && fresh(streamer) && created == old(created) + {streamer}
                && streamer.camera == camera && streamer.outputDir == DEFAULT_OUTPUT_DIR
                && streamer.streamRequests == [HlsRequest(DEFAULT_OUTPUT_DIR, now)] && streamer.stopCalls == []
                && streamer.liveCall == (if call.Ok? then Some(call.value) else None)
                && streamer.hlsPlaylist == (if call.Ok? then Some(PlaylistUrl(now)) else None)
                && (old(streamer) != null ==>
                      && old(streamer).liveCall.None? && !old(streamer).isActive
                      && old(streamer).stopCalls == old(streamer.stopCalls) + (if old(streamer.liveCall).Some? then [old(streamer.liveCall).value] else []))
                && if call.Ok? && ReadyWithin(obs, DEFAULT_MAX_WAIT_MS) then
                     && streamer.isActive && streamer.callEndedSubscribed
                     && outbox == old(outbox) + [StreamStarted(deviceId, camera.name, HLS_MODE, PlaylistUrl(now))]
                     && registry.sessions == old(registry.sessions)[socketId := streamer]
                   else
                     && !streamer.isActive && !streamer.callEndedSubscribed
                     && outbox == old(outbox) + [StreamError(if call.Err? then call.message else PLAYLIST_NOT_CREATED)]
                     && registry.sessions == old(registry.sessions)
    {
      if cameras.Err? {
        outbox := outbox + [StreamError(cameras.message)];
        return;
      }
      var camera := FindCamera(cameras.value, deviceId);
      if camera.None? {
        outbox := outbox + [StreamError(DEVICE_NOT_FOUND)];
        return;
      }
      Launch(deviceId, camera.value, now, call, obs, stopOk);
    }

    /** The part of start-stream after the camera was found: await the old
        streamer's `stop`, then construct, wire and start the new one. */
    method Launch(deviceId: string, camera: Camera, now: nat, call: Result<LiveCall>,
                  obs: seq<FileStat>, stopOk: bool)
      requires Valid()
      modifies this, registry, streamer
      ensures Valid()
      ensures audioPacketCount == old(audioPacketCount) && frames == old(frames)
      ensures streamer != null && fresh(streamer) && created == old(created) + {streamer}
      ensures streamer.camera == camera && streamer.outputDir == DEFAULT_OUTPUT_DIR
      ensures streamer.streamRequests == [HlsRequest(DEFAULT_OUTPUT_DIR, now)] && streamer.stopCalls == []
      ensures streamer.liveCall == (if call.Ok? then Some(call.value) else None)
      ensures streamer.hlsPlaylist == (if call.Ok? then Some(PlaylistUrl(now)) else None)
      ensures old(streamer) != null ==>
                && old(streamer).liveCall.None? && !old(streamer).isActive
                && old(streamer).stopCalls == old(streamer.stopCalls) + (if old(streamer.liveCall).Some? then [old(streamer.liveCall).value] else [])
      ensures if call.Ok? && ReadyWithin(obs, DEFAULT_MAX_WAIT_MS) then
                && streamer.isActive && streamer.callEndedSubscribed
                && outbox == old(outbox) + [StreamStarted(deviceId, camera.name, HLS_MODE, PlaylistUrl(now))]
                && registry.sessions == old(registry.sessions)[socketId := streamer]
              else
                && !streamer.isActive && !streamer.callEndedSubscribed
                && outbox == old(outbox) + [StreamError(if call.Err? then call.message else PLAYLIST_NOT_CREATED)]
                && registry.sessions == old(registry.sessions)
    {
      Retire(stopOk);
      var s, result := NewRelay(camera, now, call, obs);
      created := created + {s};
      streamer := s;
      if result.Err? {
        outbox := outbox + [StreamError(result.message)];
        return;
      }
      outbox := outbox + [StreamStarted(deviceId, camera.name, HLS_MODE, result.value)];
      registry.sessions := registry.sessions[socketId := s];
    }

    /** `await streamer.stop()` when a streamer exists; the variable keeps it. */
    method Retire(stopOk: bool)
      requires Valid()
      modifies streamer
      ensures Valid()
      ensures old(streamer) != null ==>
                && streamer.liveCall.None? && !streamer.isActive
                && streamer.stopCalls == old(streamer.stopCalls) + (if old(streamer.liveCall).Some? then [old(streamer.liveCall).value] else [])
    {
      if streamer != null {
        streamer.Stop(stopOk);
      }
    }

    /** `activate-mic`, with the outcomes `activateMicrophone` depends on. */
    method ActivateMic(speakerOk: bool, newEncoder: Option<nat>, bitrateOk: bool, random: real)
      requires Valid()
      requires 0.0 <= random < 1.0
      modifies this, streamer
      ensures Valid()
      ensures streamer == old(streamer) && created == old(created)
      ensures audioPacketCount == old(audioPacketCount) && frames == old(frames)
      ensures old(streamer) == null ==> outbox == old(outbox) + [MicError(NO_ACTIVE_STREAM)]
      ensures old(streamer) != null ==>
                var installed := streamer.liveCall.Some? && speakerOk && newEncoder.Some?;
                var ok := installed && bitrateOk;
                && streamer.liveCall == old(streamer.liveCall) && streamer.isActive == old(streamer.isActive)
                && streamer.hlsPlaylist == old(streamer.hlsPlaylist) && streamer.callEndedSubscribed == old(streamer.callEndedSubscribed)
                && streamer.hasOnStreamEnd == old(streamer.hasOnStreamEnd)
                && streamer.streamRequests == old(streamer.streamRequests) && streamer.stopCalls == old(streamer.stopCalls)
                && outbox == old(outbox) + [if ok then MicActivated else MicError(MIC_FAILED)]
                // Activated: a configured encoder, reset counters and a new ssrc.
                && (ok ==>
                      && streamer.opusEncoder == Some(OpusEncoder(newEncoder.value, OPUS_SAMPLE_RATE, OPUS_CHANNELS, Some(OPUS_BITRATE)))
                      && streamer.rtpSequence == 0 && streamer.rtpTimestamp == 0 && streamer.uplink == []
                      && streamer.ssrc == (random * 4294967295.0).Floor)
                // setBitrate threw: the new encoder is kept, the RTP state is not reset.
                && (installed && !bitrateOk ==>
                      && streamer.opusEncoder == Some(OpusEncoder(newEncoder.value, OPUS_SAMPLE_RATE, OPUS_CHANNELS, None))
                      && streamer.rtpSequence == old(streamer.rtpSequence) && streamer.rtpTimestamp == old(streamer.rtpTimestamp)
                      && streamer.ssrc == old(streamer.ssrc) && streamer.uplink == old(streamer.uplink))
                // No call, no speaker or no encoder: the uplink state is as it was.
                && (!installed ==>
                      && streamer.opusEncoder == old(streamer.opusEncoder)
                      && streamer.rtpSequence == old(streamer.rtpSequence) && streamer.rtpTimestamp == old(streamer.rtpTimestamp)
                      && streamer.ssrc == old(streamer.ssrc) && streamer.uplink == old(streamer.uplink))
    {
      if streamer == null {
        outbox := outbox + [MicError(NO_ACTIVE_STREAM)];
        return;
      }
      var success := streamer.ActivateMicrophone(speakerOk, newEncoder, bitrateOk, random);
      if success {
        outbox := outbox + [MicActivated];
      } else {
        outbox := outbox + [MicError(MIC_FAILED)];
      }
    }

    /** `deactivate-mic`: the streamer's deactivation is a no-op, and the reply is unconditional. */
    method DeactivateMic()
      requires Valid()
      modifies this
      ensures Valid()
      ensures streamer == old(streamer) && created == old(created)
      ensures audioPacketCount == old(audioPacketCount) && frames == old(frames)
      ensures outbox == old(outbox) + [MicDeactivated]
    {
      if streamer != null {
        streamer.DeactivateMicrophone();
      }
      outbox := outbox + [MicDeactivated];
    }

    /** `audio-data`: forwarded exactly when a streamer with a live call
        exists, dropped otherwise; counted either way. */
    method AudioData(audio: seq<byte>, encoded: Option<seq<byte>>, sendOk: bool)
      requires Valid()
      modifies this, streamer
      ensures Valid()
      ensures streamer == old(streamer) && created == old(created) && outbox == old(outbox)
      ensures audioPacketCount == old(audioPacketCount) + 1
      ensures frames == old(frames) + [if old(streamer) != null && old(streamer.liveCall).Some? then Forwarded else Dropped]
      ensures old(streamer) != null && old(streamer.liveCall).None? ==> unchanged(streamer)
      ensures old(streamer) != null && old(streamer.liveCall).Some? ==>
                var stamped := old(streamer.opusEncoder).Some? && encoded.Some?;
                // A frame never changes the relay.
                && streamer.liveCall == old(streamer.liveCall) && streamer.isActive == old(streamer.isActive)
                && streamer.hlsPlaylist == old(streamer.hlsPlaylist) && streamer.callEndedSubscribed == old(streamer.callEndedSubscribed)
                && streamer.hasOnStreamEnd == old(streamer.hasOnStreamEnd)
                && streamer.streamRequests == old(streamer.streamRequests) && streamer.stopCalls == old(streamer.stopCalls)
                && streamer.opusEncoder == old(streamer.opusEncoder) && streamer.ssrc == old(streamer.ssrc)
                && streamer.rtpSequence == old(streamer.rtpSequence) + (if stamped then 1 else 0)
                && streamer.rtpTimestamp == old(streamer.rtpTimestamp) + (if stamped then OPUS_FRAME_SIZE else 0)
                && streamer.uplink == old(streamer.uplink) +
                     (if stamped && sendOk
                      then [RtpPacket(OpusHeader(old(streamer.rtpSequence), old(streamer.rtpTimestamp), streamer.ssrc), encoded.value)]
                      else [])
    {
      if streamer != null && streamer.CanSendAudio() {
        audioPacketCount := audioPacketCount + 1;
        frames := frames + [Forwarded];
        streamer.SendAudioData(audio, encoded, sendOk);
      } else {
        audioPacketCount := audioPacketCount + 1;
        frames := frames + [Dropped];
      }
    }

    /** `stop-stream`. */
    method StopStream(stopOk: bool)
      requires Valid()
      modifies this, registry, streamer
      ensures Valid()
      ensures streamer == null && created == old(created)
      ensures audioPacketCount == old(audioPacketCount) && frames == old(frames)
      ensures outbox == old(outbox) + [StreamStopped]
      ensures old(streamer) == null ==> registry.sessions == old(registry.sessions)
      ensures old(streamer) != null ==>
                && old(streamer).liveCall.None? && !old(streamer).isActive
                && old(streamer).stopCalls == old(streamer.stopCalls) + (if old(streamer.liveCall).Some? then [old(streamer.liveCall).value] else [])
                && registry.sessions == old(registry.sessions) - {socketId}
    {
      if streamer != null {
        streamer.Stop(stopOk);
        streamer := null;
        registry.sessions := registry.sessions - {socketId};
      }
      outbox := outbox + [StreamStopped];
    }

    /** `disconnect`: stops the streamer and clears the registry entry; the
        local `streamer` variable itself is not reset. */
    method Disconnect(stopOk: bool)
      requires Valid()
      modifies this, registry, streamer
      ensures Valid()
      ensures streamer == old(streamer) && created == old(created) && outbox == old(outbox)
      ensures audioPacketCount == old(audioPacketCount) && frames == old(frames)
      ensures streamer == null ==> registry.sessions == old(registry.sessions)
      ensures streamer != null ==>
                && streamer.liveCall.None? && !streamer.isActive
                && streamer.stopCalls == old(streamer.stopCalls) + (if old(streamer.liveCall).Some? then [old(streamer.liveCall).value] else [])
                && registry.sessions == old(registry.sessions) - {socketId}
    {
      if streamer != null {
        streamer.Stop(stopOk);
        registry.sessions := registry.sessions - {socketId};
      }
    }

    /** The current live call ends: the callback installed by start-stream
        emits `stream-ended` when the streamer's handler fires. */
    method CallEnded()
      requires Valid()
      modifies this, streamer
      ensures Valid()
      ensures streamer == old(streamer) && created == old(created)
      ensures audioPacketCount == old(audioPacketCount) && frames == old(frames)
      ensures old(streamer) != null && old(streamer.callEndedSubscribed) ==>
                && outbox == old(outbox) + [StreamEnded]
                && !streamer.isActive && streamer.liveCall == old(streamer.liveCall)
                && streamer.stopCalls == old(streamer.stopCalls)
      ensures !(old(streamer) != null && old(streamer.callEndedSubscribed)) ==>
                outbox == old(outbox) && (streamer != null ==> streamer.isActive == old(streamer.isActive))
    {
      if streamer != null {
        var notified := streamer.OnCallEnded();
        if notified {
          outbox := outbox + [StreamEnded];
        }
      }
    }
  }
}
