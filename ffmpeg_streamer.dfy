/** The HLS relay controller of src/ffmpeg-streamer.js: a camera's live call
    set up to write a rolling HLS playlist, the readiness probe that waits for
    that playlist, and the Opus/RTP uplink that stamps the viewer's audio
    frames before handing them to the call.

    The live call, the Opus encoder and the RTP serialiser are external
    objects: each of their operations that can fail is a parameter holding its
    outcome.  Ghost fields record what the device side observes: the requests
    to stream video, the calls to stop the live call, and the packets handed to
    the call's audio sink since the microphone was last activated. */
module Streaming {
  import opened Common

  const OPUS_SAMPLE_RATE: int := 48000
  const OPUS_CHANNELS: int := 1
  /** One 20 ms frame at the 48 kHz Opus RTP clock (RFC 7587 section 4.1). */
  const OPUS_FRAME_SIZE: int := 960
  const OPUS_BITRATE: int := 24000
  /** Fixed RTP header fields (RFC 3550 section 5.1) and Opus's dynamic payload type. */
  const RTP_VERSION: int := 2
  const OPUS_PAYLOAD_TYPE: int := 111
  /** `Math.floor(Math.random() * 0xFFFFFFFF)` lies below this bound. */
  const SSRC_SPAN: int := 0xFFFFFFFF

  const CHECK_INTERVAL_MS: int := 500
  const DEFAULT_MAX_WAIT_MS: int := 10000
  const MIN_PLAYLIST_BYTES: int := 50
  const DEFAULT_OUTPUT_DIR: string := "./public/streams"
  const PLAYLIST_NOT_CREATED: string := "HLS playlist not created - streaming may have failed"

  datatype Camera = Camera(id: nat, name: string)

  /** An opaque handle to a live call returned by the camera's `streamVideo`. */
  datatype LiveCall = LiveCall(handle: nat)

  /** An OpusScript encoder; `bitrate` is None until `setBitrate` succeeded. */
  datatype OpusEncoder = OpusEncoder(handle: nat, sampleRate: int, channels: int, bitrate: Option<int>)

  datatype RtpHeader = RtpHeader(version: int, payloadType: int, sequenceNumber: int,
                                 timestamp: int, ssrc: int, marker: bool)

  datatype RtpPacket = RtpPacket(header: RtpHeader, payload: seq<byte>)

  /** The ffmpeg directives passed to `streamVideo`. */
  datatype StreamRequest = StreamRequest(video: seq<string>, audio: seq<string>, output: seq<string>,
                                         transcodeReturnAudio: bool)

  /** What one readiness check sees of the playlist file. */
  datatype FileStat = Missing | Present(size: int)

  datatype StreamerState = StreamerState(isActive: bool, cameraName: string, playlistUrl: Option<string>)

  function PlaylistFileName(sessionId: nat): string
  {
    "stream_" + NatToString(sessionId) + ".m3u8"
  }

  function SegmentPattern(sessionId: nat): string
  {
    "stream_" + NatToString(sessionId) + "_%03d.ts"
  }

  /** The playlist URL handed to the browser. */
  function PlaylistUrl(sessionId: nat): string
  {
    "/streams/" + PlaylistFileName(sessionId)
  }

  /** Copy the video, transcode the audio to AAC, and mux a 1-second-segment
      HLS playlist that keeps two segments and deletes expired ones. */
  function HlsRequest(outputDir: string, sessionId: nat): StreamRequest
  {
    StreamRequest(
      ["-vcodec", "copy", "-fflags", "nobuffer", "-flags", "low_delay"],
      ["-acodec", "aac", "-b:a", "128k", "-ar", "44100"],
      ["-f", "hls", "-hls_time", "1", "-hls_list_size", "2",
       "-hls_flags", "delete_segments+append_list+split_by_time",
       "-hls_segment_filename", JoinPath(outputDir, SegmentPattern(sessionId)),
       JoinPath(outputDir, PlaylistFileName(sessionId))],
      false)
  }

  lemma StripAffixes(p: string, x: string, y: string, q: string)
    requires p + x + q == p + y + q
    ensures x == y
  {
    var s := p + x + q;
    assert |x| == |y|;
    assert x == s[|p|..|p| + |x|];
    assert y == (p + y + q)[|p|..|p| + |y|];
  }

  /** Output artifacts are unique per session id: two different session ids
      never share a playlist URL, a playlist file or a segment pattern. */
  lemma {:induction false} ArtifactsUnique(a: nat, b: nat)
    requires a != b
    ensures PlaylistUrl(a) != PlaylistUrl(b)
    ensures PlaylistFileName(a) != PlaylistFileName(b)
    ensures SegmentPattern(a) != SegmentPattern(b)
  {
    var da, db := NatToString(a), NatToString(b);
    if da == db {
      NatToStringInjective(a, b);
    }
    if PlaylistFileName(a) == PlaylistFileName(b) {
      StripAffixes("stream_", da, db, ".m3u8");
      NatToStringInjective(a, b);
    }
    if PlaylistUrl(a) == PlaylistUrl(b) {
      assert PlaylistUrl(a) == "/streams/stream_" + da + ".m3u8";
      assert PlaylistUrl(b) == "/streams/stream_" + db + ".m3u8";
      StripAffixes("/streams/stream_", da, db, ".m3u8");
      NatToStringInjective(a, b);
    }
    if SegmentPattern(a) == SegmentPattern(b) {
      StripAffixes("stream_", da, db, "_%03d.ts");
      NatToStringInjective(a, b);
    }
  }

  /** The playlist file as the check at index `k` sees it; checks beyond the
      listed observations see no file. */
  function ObservedAt(obs: seq<FileStat>, k: nat): FileStat
  {
    if k < |obs| then obs[k] else Missing
  }

  predicate Ready(f: FileStat)
  {
    f.Present? && f.size > MIN_PLAYLIST_BYTES
  }

  /** Some check made before `maxWaitMs` elapsed sees a playlist of more than 50 bytes. */
  ghost predicate ReadyWithin(obs: seq<FileStat>, maxWaitMs: int)
  {
    exists k: nat :: CHECK_INTERVAL_MS * k < maxWaitMs && Ready(ObservedAt(obs, k))
  }

  /** The RTP header `sendAudioData` stamps on an Opus frame. */
  function OpusHeader(sequenceNumber: int, timestamp: int, ssrc: int): RtpHeader
  {
    RtpHeader(RTP_VERSION, OPUS_PAYLOAD_TYPE, sequenceNumber, timestamp, ssrc, false)
  }

  /** Every packet carries the fixed Opus header fields and the session's
      SSRC, its timestamp is 960 times its sequence number, sequence numbers
      strictly increase and all lie below the next one to be used. */
  ghost predicate UplinkStamped(ps: seq<RtpPacket>, next: int, ssrc: int)
  {
    && (forall i :: 0 <= i < |ps| ==>
          && ps[i].header == OpusHeader(ps[i].header.sequenceNumber, OPUS_FRAME_SIZE * ps[i].header.sequenceNumber, ssrc)
          && 0 <= ps[i].header.sequenceNumber < next)
    && (forall i, j :: 0 <= i < j < |ps| ==> ps[i].header.sequenceNumber < ps[j].header.sequenceNumber)
  }

  class FFmpegStreamer {
    const camera: Camera
    const outputDir: string
    var liveCall: Option<LiveCall>
    var isActive: bool
    var hlsPlaylist: Option<string>
    var opusEncoder: Option<OpusEncoder>
    var rtpSequence: int
    var rtpTimestamp: int
    var ssrc: int
    /** `setOnStreamEnd` has installed a callback. */
    var hasOnStreamEnd: bool
    /** The current live call carries this streamer's call-ended handler. */
    var callEndedSubscribed: bool

    ghost var streamRequests: seq<StreamRequest>
    ghost var stopCalls: seq<LiveCall>
    ghost var uplink: seq<RtpPacket>

    ghost predicate Valid()
      reads this
    {
      && (isActive ==> liveCall.Some? && hlsPlaylist.Some?)
      && ValidApartFromActivity()
    }

    /** Everything in `Valid` except what the activity flag implies. */
    ghost predicate ValidApartFromActivity()
      reads this
    {
      && (callEndedSubscribed ==> liveCall.Some?)
      && 0 <= ssrc < SSRC_SPAN
      && 0 <= rtpSequence
      && rtpTimestamp == OPUS_FRAME_SIZE * rtpSequence
      && UplinkStamped(uplink, rtpSequence, ssrc)
    }

    /** The live call and HLS bookkeeping did not change. */
    twostate predicate CallUnchanged()
      reads this
    {
      && liveCall == old(liveCall) && isActive == old(isActive) && hlsPlaylist == old(hlsPlaylist)
      && hasOnStreamEnd == old(hasOnStreamEnd) && callEndedSubscribed == old(callEndedSubscribed)
      && streamRequests == old(streamRequests) && stopCalls == old(stopCalls)
    }

    /** The encoder and the RTP state did not change. */
    twostate predicate UplinkUnchanged()
      reads this
    {
      && opusEncoder == old(opusEncoder) && rtpSequence == old(rtpSequence)
      && rtpTimestamp == old(rtpTimestamp) && ssrc == old(ssrc) && uplink == old(uplink)
    }

    /** `new FFmpegStreamer(camera, outputDir)`; the RTP fields, undefined in
        the source until the microphone is activated, start at 0. */
    constructor (camera: Camera, outputDir: string)
      ensures Valid()
      ensures this.camera == camera && this.outputDir == outputDir
      ensures liveCall.None? && !isActive && hlsPlaylist.None? && opusEncoder.None?
      ensures !hasOnStreamEnd && !callEndedSubscribed
      ensures rtpSequence == 0 && rtpTimestamp == 0 && ssrc == 0
      ensures streamRequests == [] && stopCalls == [] && uplink == []
    {
      this.camera := camera;
      this.outputDir := outputDir;
      liveCall := None;
      isActive := false;
      hlsPlaylist := None;
      opusEncoder := None;
      rtpSequence, rtpTimestamp, ssrc := 0, 0, 0;
      hasOnStreamEnd, callEndedSubscribed := false, false;
      streamRequests, stopCalls, uplink := [], [], [];
    }

    /** `start`, with `sessionId` the value of `Date.now()`, `call` the outcome
        of `streamVideo` and `obs` what the readiness checks see. */
    method Start(sessionId: nat, call: Result<LiveCall>, obs: seq<FileStat>) returns (r: Result<string>)
      requires Valid()
      modifies this
      ensures Valid()
      ensures UplinkUnchanged() && hasOnStreamEnd == old(hasOnStreamEnd) && stopCalls == old(stopCalls)
      // Idempotent while active: the same playlist and no new call.
      ensures old(isActive) ==> r == Ok(old(hlsPlaylist).value) && CallUnchanged()
      // Otherwise exactly one streamVideo request, naming this session's files.
      ensures !old(isActive) ==> streamRequests == old(streamRequests) + [HlsRequest(outputDir, sessionId)]
      ensures !old(isActive) ==> (isActive <==> r.Ok?)
      // The device refused the call: nothing else moves.
      ensures !old(isActive) && call.Err? ==>
                && r == Err(call.message) && liveCall == old(liveCall) && hlsPlaylist == old(hlsPlaylist)
                && callEndedSubscribed == old(callEndedSubscribed)
      // The call is up: it stays up even when the playlist never appears.
      ensures !old(isActive) && call.Ok? ==>
                && liveCall == Some(call.value) && hlsPlaylist == Some(PlaylistUrl(sessionId))
                && (r.Ok? <==> ReadyWithin(obs, DEFAULT_MAX_WAIT_MS))
                && (r.Ok? ==> r.value == PlaylistUrl(sessionId))
                && (r.Err? ==> r.message == PLAYLIST_NOT_CREATED)
                && (callEndedSubscribed <==> r.Ok?)
    {
      if isActive {
        return Ok(hlsPlaylist.value);
      }
      var playlistPath := JoinPath(outputDir, PlaylistFileName(sessionId));
      streamRequests := streamRequests + [HlsRequest(outputDir, sessionId)];
      if call.Err? {
        isActive := false;
        return Err(call.message);
      }
      liveCall := Some(call.value);
      callEndedSubscribed := false;
      isActive := true;
      hlsPlaylist := Some(PlaylistUrl(sessionId));
      var ready, _ := WaitForPlaylist(playlistPath, obs, DEFAULT_MAX_WAIT_MS);
      if !ready {
        isActive := false;
        return Err(PLAYLIST_NOT_CREATED);
      }
      callEndedSubscribed := true;
      r := Ok(hlsPlaylist.value);
    }

    /** `waitForPlaylist`: checks every 500 ms while less than `maxWaitMs`
        has elapsed; `elapsedMs` is the time of the successful check, or the
        time at which the wait gave up.  It only observes the file. */
    method WaitForPlaylist(playlistPath: string, obs: seq<FileStat>, maxWaitMs: int) returns (ready: bool, elapsedMs: nat)
      ensures ready <==> ReadyWithin(obs, maxWaitMs)
      ensures elapsedMs % CHECK_INTERVAL_MS == 0
      ensures ready ==> elapsedMs < maxWaitMs && Ready(ObservedAt(obs, elapsedMs / CHECK_INTERVAL_MS))
      ensures forall k: nat :: CHECK_INTERVAL_MS * k < elapsedMs ==> !Ready(ObservedAt(obs, k))
      ensures !ready ==> maxWaitMs <= elapsedMs < maxWaitMs + CHECK_INTERVAL_MS || (maxWaitMs <= 0 && elapsedMs == 0)
    {
      elapsedMs := 0;
      while elapsedMs < maxWaitMs
        invariant elapsedMs % CHECK_INTERVAL_MS == 0
        invariant forall k: nat :: CHECK_INTERVAL_MS * k < elapsedMs ==> !Ready(ObservedAt(obs, k))
        invariant elapsedMs == 0 || elapsedMs < maxWaitMs + CHECK_INTERVAL_MS
        decreases maxWaitMs - elapsedMs
      {
        var stat := ObservedAt(obs, elapsedMs / CHECK_INTERVAL_MS);
        if Ready(stat) {
          return true, elapsedMs;
        }
        elapsedMs := elapsedMs + CHECK_INTERVAL_MS;
      }
      ready := false;
      forall k: nat | CHECK_INTERVAL_MS * k < maxWaitMs
        ensures !Ready(ObservedAt(obs, k))
      {
      }
    }

    /** `activateMicrophone`: `speakerOk` is the outcome of
        `activateCameraSpeaker`, `newEncoder` that of constructing the Opus
        encoder, `bitrateOk` that of `setBitrate`, and `random` the value of
        `Math.random()`. */
    method ActivateMicrophone(speakerOk: bool, newEncoder: Option<nat>, bitrateOk: bool, random: real) returns (ok: bool)
      requires Valid()
      requires 0.0 <= random < 1.0
      modifies this
      ensures Valid()
      ensures CallUnchanged()
      ensures ok <==> liveCall.Some? && speakerOk && newEncoder.Some? && bitrateOk
      ensures ok ==>
                && opusEncoder == Some(OpusEncoder(newEncoder.value, OPUS_SAMPLE_RATE, OPUS_CHANNELS, Some(OPUS_BITRATE)))
                && rtpSequence == 0 && rtpTimestamp == 0 && uplink == []
                && ssrc == (random * 4294967295.0).Floor && 0 <= ssrc < SSRC_SPAN
      // setBitrate threw: the new encoder is already installed, the RTP state is not reset.
      ensures !ok && liveCall.Some? && speakerOk && newEncoder.Some? ==>
                && opusEncoder == Some(OpusEncoder(newEncoder.value, OPUS_SAMPLE_RATE, OPUS_CHANNELS, None))
                && rtpSequence == old(rtpSequence) && rtpTimestamp == old(rtpTimestamp)
                && ssrc == old(ssrc) && uplink == old(uplink)
      ensures !(liveCall.Some? && speakerOk && newEncoder.Some?) ==> UplinkUnchanged()
    {
      if liveCall.None? {
        return false;
      }
      if !speakerOk {
        return false;
      }
      if newEncoder.None? {
        return false;
      }
      opusEncoder := Some(OpusEncoder(newEncoder.value, OPUS_SAMPLE_RATE, OPUS_CHANNELS, None));
      if !bitrateOk {
        return false;
      }
      opusEncoder := Some(opusEncoder.value.(bitrate := Some(OPUS_BITRATE)));
      rtpSequence := 0;
      rtpTimestamp := 0;
      ssrc := (random * 4294967295.0).Floor;
      uplink := [];
      ok := true;
    }

    /** `deactivateMicrophone` does nothing. */
    method DeactivateMicrophone()
      ensures unchanged(this)
    {
    }

    /** `sendAudioData`: `encoded` is the outcome of the Opus encoder on the
        frame (None when it, or the PCM view of the buffer, threw), and
        `sendOk` whether `sendAudioPacket` returned normally.  No error
        reaches the caller. */
    method SendAudioData(audioData: seq<byte>, encoded: Option<seq<byte>>, sendOk: bool)
      requires Valid()
      modifies this
      ensures Valid()
      ensures CallUnchanged() && opusEncoder == old(opusEncoder) && ssrc == old(ssrc)
      ensures old(liveCall).None? || old(opusEncoder).None? || encoded.None? ==> UplinkUnchanged()
      ensures old(liveCall).Some? && old(opusEncoder).Some? && encoded.Some? ==>
                && rtpSequence == old(rtpSequence) + 1
                && rtpTimestamp == old(rtpTimestamp) + OPUS_FRAME_SIZE
                && uplink == old(uplink) + (if sendOk then [RtpPacket(OpusHeader(old(rtpSequence), old(rtpTimestamp), ssrc), encoded.value)] else [])
    {
      if liveCall.None? || opusEncoder.None? {
        return;
      }
      if encoded.None? {
        return;
      }
      var header := OpusHeader(rtpSequence, rtpTimestamp, ssrc);
      rtpSequence := rtpSequence + 1;
      rtpTimestamp := rtpTimestamp + OPUS_FRAME_SIZE;
      var rtp := RtpPacket(header, encoded.value);
      if sendOk {
        uplink := uplink + [rtp];
      }
    }

    /** `canSendAudio`: a live call exists, whether or not the microphone was activated. */
    function CanSendAudio(): (r: bool)
      reads this
      ensures r <==> liveCall.Some?
    {
      liveCall.Some?
    }

    /** `stop`, with `stopOk` whether the live call's `stop` resolved; its
        failure is swallowed. */
    method Stop(stopOk: bool)
      requires Valid()
      modifies this
      ensures Valid()
      ensures liveCall.None? && !isActive && !callEndedSubscribed
      ensures stopCalls == old(stopCalls) + (if old(liveCall).Some? then [old(liveCall).value] else [])
      ensures hlsPlaylist == old(hlsPlaylist) && hasOnStreamEnd == old(hasOnStreamEnd)
      ensures streamRequests == old(streamRequests) && UplinkUnchanged()
    {
      if liveCall.Some? {
        stopCalls := stopCalls + [liveCall.value];
        liveCall := None;
        callEndedSubscribed := false;
      }
      Cleanup();
    }

    /** `cleanup`: only lowers the activity flag; no file is removed. */
    method Cleanup()
      requires ValidApartFromActivity()
      modifies this
      ensures Valid()
      ensures !isActive
      ensures liveCall == old(liveCall) && hlsPlaylist == old(hlsPlaylist) && hasOnStreamEnd == old(hasOnStreamEnd)
      ensures callEndedSubscribed == old(callEndedSubscribed) && streamRequests == old(streamRequests)
      ensures stopCalls == old(stopCalls) && UplinkUnchanged()
    {
      isActive := false;
    }

    /** The live call's call-ended event.  It reaches this streamer only when
        `start` subscribed to the current call; the handler runs `cleanup`
        (the call itself is kept) and reports whether `onStreamEnd` fired. */
    method OnCallEnded() returns (notified: bool)
      requires Valid()
      modifies this
      ensures Valid()
      ensures notified <==> old(callEndedSubscribed) && hasOnStreamEnd
      ensures isActive == (old(isActive) && !old(callEndedSubscribed))
      ensures liveCall == old(liveCall) && hlsPlaylist == old(hlsPlaylist) && hasOnStreamEnd == old(hasOnStreamEnd)
      ensures callEndedSubscribed == old(callEndedSubscribed) && streamRequests == old(streamRequests)
      ensures stopCalls == old(stopCalls) && UplinkUnchanged()
    {
      notified := false;
      if callEndedSubscribed {
        Cleanup();
        notified := hasOnStreamEnd;
      }
    }

    /** `setOnStreamEnd`. */
    method SetOnStreamEnd()
      requires Valid()
      modifies this
      ensures Valid()
      ensures hasOnStreamEnd
      ensures liveCall == old(liveCall) && isActive == old(isActive) && hlsPlaylist == old(hlsPlaylist)
      ensures callEndedSubscribed == old(callEndedSubscribed) && streamRequests == old(streamRequests)
      ensures stopCalls == old(stopCalls) && UplinkUnchanged()
    {
      hasOnStreamEnd := true;
    }

    /** `getState`. */
    function GetState(): (s: StreamerState)
      reads this
      ensures s.isActive == isActive && s.cameraName == camera.name && s.playlistUrl == hlsPlaylist
    {
      StreamerState(isActive, camera.name, hlsPlaylist)
    }
  }
}
