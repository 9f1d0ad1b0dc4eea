/** `StreamHandler` of src/stream-handler.js: a SIP session for one camera,
    started once, stopped idempotently, and switched off when the far end
    hangs up.

    The camera's `createSipSession` and the session's `start` are fallible
    calls whose outcomes are parameters; `Date.now()` is a parameter too.
    The ghost logs `createdSessions` and `stopCalls` record the sessions
    this handler asked for and the ones it stopped. */
module SipStreaming {
  import opened Common
  import opened Streaming

  const ALREADY_ACTIVE: string := "Stream already active"
  const STREAM_STARTED: string := "Stream started"

  /** A SIP session and the SDP it carries. */
  datatype SipSession = SipSession(handle: nat, sdp: string)

  /** The object `startStream` resolves to. */
  datatype StartReply =
    | Started(message: string, sessionId: string)
    | NotStarted(error: string)

  class StreamHandler {
    const camera: Camera
    var sipSession: Option<SipSession>
    var isActive: bool
    /** Never assigned anything but null in this file: `stopStream` clears it. */
    var ffmpegProcess: Option<nat>
    var hasOnStreamEnd: bool
    /** The call-ended handler is subscribed on the current `sipSession`. */
    var callEndedSubscribed: bool
    ghost var createdSessions: seq<SipSession>
    ghost var stopCalls: seq<SipSession>

    ghost predicate Valid()
      reads this
    {
      && (isActive ==> sipSession.Some? && callEndedSubscribed)
      && (callEndedSubscribed ==> sipSession.Some?)
      && (sipSession.Some? ==> |createdSessions| > 0 && sipSession.value == createdSessions[|createdSessions| - 1])
    }

    constructor (camera: Camera)
      ensures Valid()
      ensures this.camera == camera && sipSession.None? && !isActive && ffmpegProcess.None?
      ensures !hasOnStreamEnd && !callEndedSubscribed && createdSessions == [] && stopCalls == []
    {
      this.camera := camera;
      sipSession := None;
      isActive := false;
      ffmpegProcess := None;
      hasOnStreamEnd := false;
      callEndedSubscribed := false;
      createdSessions := [];
      stopCalls := [];
    }

    /** `startStream`: `created` is the outcome of `createSipSession`,
        `startError` the error `start()` throws (None when it resolves), and
        `nowMs` the clock.  It never throws: every failure is a reply. */
    method StartStream(created: Result<SipSession>, startError: Option<string>, nowMs: nat) returns (reply: StartReply)
      requires Valid()
      modifies this
      ensures Valid()
      ensures stopCalls == old(stopCalls) && hasOnStreamEnd == old(hasOnStreamEnd) && ffmpegProcess == old(ffmpegProcess)
      // Already active: refused, and no session is created.
      ensures old(isActive) ==>
                reply == NotStarted(ALREADY_ACTIVE) && createdSessions == old(createdSessions)
                && sipSession == old(sipSession) && isActive && callEndedSubscribed == old(callEndedSubscribed)
      // Creation fails: nothing is kept.
      ensures !old(isActive) && created.Err? ==>
                reply == NotStarted(created.message) && !isActive && createdSessions == old(createdSessions)
                && sipSession == old(sipSession) && callEndedSubscribed == old(callEndedSubscribed)
      // Created: the session is kept and subscribed whether or not it starts.
      ensures !old(isActive) && created.Ok? ==>
                && createdSessions == old(createdSessions) + [created.value]
                && sipSession == Some(created.value) && callEndedSubscribed
                && (isActive <==> startError.None?)
                && reply == (if startError.None? then Started(STREAM_STARTED, NatToString(nowMs)) else NotStarted(startError.value))
      ensures reply.Started? <==> isActive && !old(isActive)
    {
      if isActive {
        reply := NotStarted(ALREADY_ACTIVE);
        return;
      }
      match created
      case Err(message) =>
        isActive := false;
        reply := NotStarted(message);
      case Ok(session) =>
        sipSession := Some(session);
        createdSessions := createdSessions + [session];
        isActive := true;
        callEndedSubscribed := true;
        if startError.Some? {
          isActive := false;
          reply := NotStarted(startError.value);
        } else {
          reply := Started(STREAM_STARTED, NatToString(nowMs));
        }
    }

    /** `stopStream`: a stop error is swallowed, so the outcome does not
        depend on it.  A second call finds no session and stops nothing. */
    method StopStream()
      requires Valid()
      modifies this
      ensures Valid()
      ensures sipSession.None? && ffmpegProcess.None? && !isActive && !callEndedSubscribed
      ensures stopCalls == old(stopCalls) + (if old(sipSession).Some? then [old(sipSession).value] else [])
      ensures createdSessions == old(createdSessions) && hasOnStreamEnd == old(hasOnStreamEnd)
    {
      if sipSession.Some? {
        stopCalls := stopCalls + [sipSession.value];
        sipSession := None;
      }
      if ffmpegProcess.Some? {
        ffmpegProcess := None;
      }
      isActive := false;
      callEndedSubscribed := false;
    }

    /** `getSdpOffer`: the SDP of the current session, null without one. */
    function GetSdpOffer(): (r: Option<string>)
      reads this
      ensures r.None? <==> sipSession.None?
      ensures r.Some? ==> r.value == sipSession.value.sdp
    {
      if sipSession.Some? then Some(sipSession.value.sdp) else None
    }

    /** `setStreamEndCallback`. */
    method SetStreamEndCallback()
      requires Valid()
      modifies this
      ensures Valid() && hasOnStreamEnd
      ensures sipSession == old(sipSession) && isActive == old(isActive) && callEndedSubscribed == old(callEndedSubscribed)
      ensures createdSessions == old(createdSessions) && stopCalls == old(stopCalls) && ffmpegProcess == old(ffmpegProcess)
    {
      hasOnStreamEnd := true;
    }

    /** The `onCallEnded` subscriber: the stream is no longer active, and the
        end callback runs when one is set. */
    method OnCallEnded() returns (notified: bool)
      requires Valid()
      modifies this
      ensures Valid()
      ensures notified <==> old(callEndedSubscribed) && hasOnStreamEnd
      ensures isActive == (old(isActive) && !old(callEndedSubscribed))
      ensures sipSession == old(sipSession) && callEndedSubscribed == old(callEndedSubscribed) && hasOnStreamEnd == old(hasOnStreamEnd)
      ensures createdSessions == old(createdSessions) && stopCalls == old(stopCalls) && ffmpegProcess == old(ffmpegProcess)
    {
      notified := false;
      if callEndedSubscribed {
        isActive := false;
        notified := hasOnStreamEnd;
      }
    }
  }
}
