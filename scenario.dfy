/** One connection's life, handler by handler: start an HLS stream whose
    playlist is ready at the second check, activate the microphone, send
    three frames, stop, and send one more frame. */
module Scenario {
  import opened Common
  import opened Streaming
  import opened Server

  /** A fresh connection starts the stream of camera 1 at time 1700. */
  method StartedConnection() returns (c: Connection)
    ensures fresh(c) && fresh(c.registry) && fresh(c.streamer) && c.Valid()
    ensures c.streamer != null && c.streamer.liveCall == Some(LiveCall(7)) && c.streamer.isActive
    ensures c.streamer.callEndedSubscribed && c.streamer.stopCalls == []
    ensures c.outbox == [StreamStarted("1", "Front Door", HLS_MODE, "/streams/stream_1700.m3u8")]
    ensures c.frames == [] && c.audioPacketCount == 0
  {
    var registry := new SessionRegistry();
    c := new Connection("socket-1", registry);
    var camera := Camera(1, "Front Door");
    var obs := [Missing, Present(120)];
    FrontDoorFound(camera);
    ReadyAtSecondCheck(obs);
    PlaylistOf1700();
    c.StartStream("1", Ok([camera]), 1700, Ok(LiveCall(7)), obs, true);
  }

  lemma FrontDoorFound(camera: Camera)
    requires camera == Camera(1, "Front Door")
    ensures FindCamera([camera], "1") == Some(camera)
  {
    assert NatToString(1) == "1";
  }

  lemma ReadyAtSecondCheck(obs: seq<FileStat>)
    requires obs == [Missing, Present(120)]
    ensures ReadyWithin(obs, DEFAULT_MAX_WAIT_MS)
  {
    assert 500 * 1 < DEFAULT_MAX_WAIT_MS && Ready(ObservedAt(obs, 1));
  }

  lemma PlaylistOf1700()
    ensures PlaylistUrl(1700) == "/streams/stream_1700.m3u8"
  {
    assert NatToString(1700) == "1700";
  }

  /** Three encoded frames after a successful activation. */
  method ThreeFrames(c: Connection, payload: seq<byte>)
    requires c.Valid() && c.streamer != null && c.streamer.liveCall.Some?
    requires c.streamer.opusEncoder.Some? && c.streamer.rtpSequence == 0 && c.streamer.rtpTimestamp == 0
    requires c.streamer.uplink == []
    modifies c, c.streamer
    ensures c.Valid() && c.streamer == old(c.streamer) && c.outbox == old(c.outbox)
    ensures c.streamer.liveCall == old(c.streamer.liveCall) && c.streamer.stopCalls == old(c.streamer.stopCalls)
    ensures c.frames == old(c.frames) + [Forwarded, Forwarded, Forwarded]
    ensures c.audioPacketCount == old(c.audioPacketCount) + 3
    ensures c.streamer.rtpSequence == 3 && c.streamer.rtpTimestamp == 3 * OPUS_FRAME_SIZE
    ensures |c.streamer.uplink| == 3
    ensures forall i :: 0 <= i < 3 ==>
              c.streamer.uplink[i] == RtpPacket(OpusHeader(i, OPUS_FRAME_SIZE * i, c.streamer.ssrc), payload)
  {
    c.AudioData(payload, Some(payload), true);
    c.AudioData(payload, Some(payload), true);
    c.AudioData(payload, Some(payload), true);
  }

  /** The replies on the socket, the packets sent on the uplink, the fate
      of the frame sent after stop-stream, the live calls stopped, the RTP
      counters after the three frames and the frames counted. */
  method TwoWayAudioSession(payload: seq<byte>, random: real)
    returns (replies: seq<ServerMessage>, ghost packets: seq<RtpPacket>, ghost afterStop: FrameFate,
             ghost stopped: seq<LiveCall>, sequence: int, timestamp: int, counted: nat)
    requires 0.0 <= random < 1.0
    ensures replies == [StreamStarted("1", "Front Door", HLS_MODE, "/streams/stream_1700.m3u8"), MicActivated, StreamStopped]
    ensures |packets| == 3
    ensures forall i :: 0 <= i < 3 ==>
              packets[i].header.sequenceNumber == i && packets[i].header.timestamp == OPUS_FRAME_SIZE * i
              && packets[i].payload == payload
    ensures afterStop == Dropped
    // stop-stream stops the relay's live call, once.
    ensures stopped == [LiveCall(7)]
    ensures sequence == 3 && timestamp == 3 * OPUS_FRAME_SIZE && counted == 4
  {
    var c := StartedConnection();
    var s := c.streamer;
    c.ActivateMic(true, Some(3), true, random);
    ThreeFrames(c, payload);
    packets := s.uplink;
    sequence, timestamp := s.rtpSequence, s.rtpTimestamp;
    c.StopStream(true);
    stopped := s.stopCalls;
    c.AudioData(payload, Some(payload), true);
    replies := c.outbox;
    afterStop := c.frames[|c.frames| - 1];
    counted := c.audioPacketCount;
  }

  /** The camera hangs up after the stream started: the client is told
      `stream-ended`, the relay is no longer active, and the call is not
      stopped by the server. */
  method CameraHangsUp() returns (replies: seq<ServerMessage>, active: bool, ghost stopped: seq<LiveCall>)
    ensures replies == [StreamStarted("1", "Front Door", HLS_MODE, "/streams/stream_1700.m3u8"), StreamEnded]
    ensures !active && stopped == []
  {
    var c := StartedConnection();
    c.CallEnded();
    replies := c.outbox;
    active := c.streamer.isActive;
    stopped := c.streamer.stopCalls;
  }
}
