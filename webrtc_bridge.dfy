/** `SimpleWebRtcBridge` of simple-webrtc-bridge.js: the camera offers, the
    browser answers.  A start while active first stops the old session; a
    failed start is rethrown; stopping prefers the session's `stop` over its
    `end` and swallows their errors.

    `createSimpleWebRtcSession`, `start` and `acceptAnswer` are fallible
    calls whose outcomes are parameters.  The ghost logs record the sessions
    created, how each stopped one was terminated, and the answers passed on. */
module WebRtcBridge {
  import opened Common
  import opened Streaming

  const SESSION_NOT_STARTED: string := "Session not started"
  const OFFER_TYPE: string := "offer"

  /** A session object and which of the optional members it has. */
  datatype WebRtcSession = WebRtcSession(handle: nat, hasStop: bool, hasEnd: bool, hasOnCallEnded: bool)

  /** `{ type, sdp }` as returned to the browser. */
  datatype Offer = Offer(kind: string, sdp: string)

  /** How `stop` ended a session. */
  datatype Termination = StoppedBy(session: WebRtcSession) | EndedBy(session: WebRtcSession)

  /** The outcome of `setAnswer`: resolved, or the error it throws. */
  datatype Outcome = Done | Failed(message: string)

  datatype BridgeState = BridgeState(isActive: bool, cameraName: string)

  /** The termination call `stop` makes on a session: `stop` when it has
      one, else `end` when it has one, else none. */
  function TerminationOf(s: WebRtcSession): (t: seq<Termination>)
    ensures s.hasStop ==> t == [StoppedBy(s)]
    ensures !s.hasStop && s.hasEnd ==> t == [EndedBy(s)]
    ensures !s.hasStop && !s.hasEnd ==> t == []
  {
    if s.hasStop then [StoppedBy(s)] else if s.hasEnd then [EndedBy(s)] else []
  }

  class SimpleWebRtcBridge {
    const camera: Camera
    var session: Option<WebRtcSession>
    var isActive: bool
    var hasOnSessionEnd: bool
    /** The call-ended handler is subscribed on the current `session`. */
    var callEndedSubscribed: bool
    ghost var created: seq<WebRtcSession>
    ghost var terminations: seq<Termination>
    ghost var answers: seq<string>

    ghost predicate Valid()
      reads this
    {
      && (isActive ==> session.Some?)
      && (callEndedSubscribed ==> session.Some? && session.value.hasOnCallEnded)
      && (session.Some? ==> |created| > 0 && session.value == created[|created| - 1])
    }

    constructor (camera: Camera)
      ensures Valid()
      ensures this.camera == camera && session.None? && !isActive && !hasOnSessionEnd && !callEndedSubscribed
      ensures created == [] && terminations == [] && answers == []
    {
      this.camera := camera;
      session := None;
      isActive := false;
      hasOnSessionEnd := false;
      callEndedSubscribed := false;
      created := [];
      terminations := [];
      answers := [];
    }

    /** `startSession`: `made` is the outcome of `createSimpleWebRtcSession`,
        `ringOffer` that of `session.start()`.  An `Err` result is the error
        rethrown to the caller. */
    method StartSession(made: Result<WebRtcSession>, ringOffer: Result<string>) returns (r: Result<Offer>)
      requires Valid()
      modifies this
      ensures Valid()
      ensures answers == old(answers) && hasOnSessionEnd == old(hasOnSessionEnd)
      // An active session is stopped first, and only then.
      ensures terminations == old(terminations) +
                (if old(isActive) then TerminationOf(old(session).value) else [])
      ensures made.Err? ==>
                && r == Err(made.message) && !isActive && created == old(created)
                && session == (if old(isActive) then None else old(session))
                && callEndedSubscribed == (!old(isActive) && old(callEndedSubscribed))
      ensures made.Ok? ==>
                && created == old(created) + [made.value] && session == Some(made.value)
                && (isActive <==> ringOffer.Ok?)
                && callEndedSubscribed == (ringOffer.Ok? && made.value.hasOnCallEnded)
                && r == (if ringOffer.Ok? then Ok(Offer(OFFER_TYPE, ringOffer.value)) else Err(ringOffer.message))
      ensures r.Ok? <==> isActive
    {
      if isActive {
        Stop();
      }
      if made.Err? {
        isActive := false;
        r := Err(made.message);
        return;
      }
      session := Some(made.value);
      created := created + [made.value];
      callEndedSubscribed := false;
      if ringOffer.Err? {
        isActive := false;
        r := Err(ringOffer.message);
        return;
      }
      isActive := true;
      if made.value.hasOnCallEnded {
        callEndedSubscribed := true;
      }
      r := Ok(Offer(OFFER_TYPE, ringOffer.value));
    }

    /** `setAnswer`: without a session it throws "Session not started";
        otherwise the answer goes to `acceptAnswer`, whose error (if any)
        is rethrown. */
    method SetAnswer(answerSdp: string, acceptError: Option<string>) returns (r: Outcome)
      requires Valid()
      modifies this
      ensures Valid()
      ensures session == old(session) && isActive == old(isActive) && callEndedSubscribed == old(callEndedSubscribed)
      ensures created == old(created) && terminations == old(terminations) && hasOnSessionEnd == old(hasOnSessionEnd)
      ensures old(session).None? ==> r == Failed(SESSION_NOT_STARTED) && answers == old(answers)
      ensures old(session).Some? ==>
                answers == old(answers) + [answerSdp]
                && r == (if acceptError.None? then Done else Failed(acceptError.value))
    {
      if session.None? {
        r := Failed(SESSION_NOT_STARTED);
        return;
      }
      answers := answers + [answerSdp];
      r := if acceptError.None? then Done else Failed(acceptError.value);
    }

    /** `stop`: errors of the termination call are swallowed, so the outcome
        does not depend on them.  A second call finds no session. */
    method Stop()
      requires Valid()
      modifies this
      ensures Valid()
      ensures session.None? && !isActive && !callEndedSubscribed
      ensures terminations == old(terminations) + (if old(session).Some? then TerminationOf(old(session).value) else [])
      ensures created == old(created) && answers == old(answers) && hasOnSessionEnd == old(hasOnSessionEnd)
    {
      if session.Some? {
        terminations := terminations + TerminationOf(session.value);
        session := None;
      }
      isActive := false;
      callEndedSubscribed := false;
    }

    /** `setOnSessionEnd`. */
    method SetOnSessionEnd()
      requires Valid()
      modifies this
      ensures Valid() && hasOnSessionEnd
      ensures session == old(session) && isActive == old(isActive) && callEndedSubscribed == old(callEndedSubscribed)
      ensures created == old(created) && terminations == old(terminations) && answers == old(answers)
    {
      hasOnSessionEnd := true;
    }

    /** The `onCallEnded` subscriber: the session is no longer active, and
        `onSessionEnd` runs when one is set. */
    method OnCallEnded() returns (notified: bool)
      requires Valid()
      modifies this
      ensures Valid()
      ensures notified <==> old(callEndedSubscribed) && hasOnSessionEnd
      ensures isActive == (old(isActive) && !old(callEndedSubscribed))
      ensures session == old(session) && callEndedSubscribed == old(callEndedSubscribed) && hasOnSessionEnd == old(hasOnSessionEnd)
      ensures created == old(created) && terminations == old(terminations) && answers == old(answers)
    {
      notified := false;
      if callEndedSubscribed {
        isActive := false;
        notified := hasOnSessionEnd;
      }
    }

    /** `getState`. */
    function GetState(): (s: BridgeState)
      reads this
      ensures s.isActive == isActive && s.cameraName == camera.name
    {
      BridgeState(isActive, camera.name)
    }
  }
}
