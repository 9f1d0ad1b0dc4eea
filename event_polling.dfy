/** The event-polling fallback of server.js (`pollEvents`): for each camera it
    looks at the newest event, keeps the last event id seen per camera, uses
    the first id seen as a baseline, and announces a new event younger than
    120 s as a doorbell ring or a motion detection.

    `Decide` is the dedup decision, written once.  `PollCameraAsWritten` is
    the source's announcement, including the RangeError that
    `toISOString()` throws for an Invalid Date, and `EventPoller` runs it;
    `PollCamera` is the corrected announcement (see `InvalidTimeIsSilenced`),
    which `PollAll` runs when `corrected` is set. */
module EventPolling {
  import opened Common
  import opened Streaming

  const MAX_EVENT_AGE_MS: int := 120000
  /** A numeric `created_at` above 1e12 is taken as milliseconds, otherwise as seconds. */
  const MS_THRESHOLD: int := 1000000000000
  /** A JavaScript Date holds at most 8.64e15 ms on either side of the epoch. */
  const MAX_TIME_MS: int := 8640000000000000
  const UNKNOWN_KIND: string := "unknown"

  /** `created_at` as returned by the account API.  For a string, `parsedMs`
      is what `new Date(text)` yields (None for an Invalid Date). */
  datatype CreatedAt =
    | NoCreatedAt
    | DateText(text: string, parsedMs: Option<int>)
    | EpochNumber(value: int)

  /** One event: the fields `pollEvents` reads. */
  datatype RingEvent = RingEvent(dingIdStr: Option<string>, id: Option<string>, createdAt: CreatedAt, kind: Option<string>)

  /** One camera in one poll: the outcome of `getEvents` and the clock when
      its events were examined. */
  datatype CameraEvents = CameraEvents(camera: Camera, events: Result<seq<RingEvent>>, now: int)

  /** What `io.emit` broadcasts, with the event time in milliseconds. */
  datatype Notification =
    | DoorbellRing(deviceId: nat, deviceName: string, timestampMs: int)
    | MotionDetected(deviceId: nat, deviceName: string, timestampMs: int)

  /** A new event past the baseline and the age window. `time` is the
      event's Date in milliseconds, None for an Invalid Date. */
  datatype Announcement = Announcement(camera: Camera, kind: string, time: Option<int>)

  datatype Decision = Decision(lastSeen: map<nat, string>, announce: Option<Announcement>)

  datatype PollStep = PollStep(lastSeen: map<nat, string>, emitted: seq<Notification>)

  predicate Truthy(s: Option<string>)
  {
    s.Some? && s.value != ""
  }

  /** `latestEvent.ding_id_str || latestEvent.id`, kept only when truthy. */
  function EventId(e: RingEvent): (r: Option<string>)
    ensures r.Some? ==> r.value != "" && (r == e.dingIdStr || r == e.id)
    ensures Truthy(e.dingIdStr) ==> r == e.dingIdStr
    ensures !Truthy(e.dingIdStr) && Truthy(e.id) ==> r == e.id
    ensures r.None? <==> !Truthy(e.dingIdStr) && !Truthy(e.id)
  {
    if Truthy(e.dingIdStr) then e.dingIdStr else if Truthy(e.id) then e.id else None
  }

  /** `new Date(ms)`: None (an Invalid Date) outside the representable range. */
  function TimeClip(ms: int): (r: Option<int>)
    ensures r.Some? <==> -MAX_TIME_MS <= ms <= MAX_TIME_MS
    ensures r.Some? ==> r.value == ms
  {
    if -MAX_TIME_MS <= ms <= MAX_TIME_MS then Some(ms) else None
  }

  /** The event time of server.js: a falsy or missing value means "now", a
      string is parsed, a large number is milliseconds, a small one seconds. */
  function EventTime(c: CreatedAt, now: int): (t: Option<int>)
    ensures c.NoCreatedAt? ==> t == Some(now)
    ensures c.DateText? && c.text == "" ==> t == Some(now)
    ensures c.DateText? && c.text != "" ==> t == c.parsedMs
    ensures c.EpochNumber? && c.value == 0 ==> t == Some(now)
    ensures c.EpochNumber? && c.value > MAX_TIME_MS ==> t == None
    ensures c.EpochNumber? && c.value != 0 && c.value * 1000 < -MAX_TIME_MS ==> t == None
    ensures c.EpochNumber? && c.value > MS_THRESHOLD && c.value <= MAX_TIME_MS ==> t == Some(c.value)
    ensures c.EpochNumber? && c.value != 0 && c.value <= MS_THRESHOLD && -MAX_TIME_MS <= c.value * 1000 ==> t == Some(c.value * 1000)
  {
    match c
    case NoCreatedAt => Some(now)
    case DateText(text, parsed) => if text == "" then Some(now) else parsed
    case EpochNumber(v) =>
      if v == 0 then Some(now)
      else if v > MS_THRESHOLD then TimeClip(v)
      else TimeClip(v * 1000)
  }

  /** `safeAge`, in milliseconds: the age, or 0 when the age is NaN. */
  function SafeAgeMs(c: CreatedAt, now: int): (age: int)
    ensures EventTime(c, now).None? ==> age == 0
    ensures EventTime(c, now).Some? ==> age == now - EventTime(c, now).value
    ensures c.NoCreatedAt? ==> age == 0
  {
    match EventTime(c, now)
    case Some(t) => now - t
    case None => 0
  }

  /** `safeAge < 120` on seconds is `ageMs < 120000` on milliseconds. */
  predicate Fresh(c: CreatedAt, now: int)
  {
    SafeAgeMs(c, now) < MAX_EVENT_AGE_MS
  }

  function Kind(e: RingEvent): string
  {
    if Truthy(e.kind) then e.kind.value else UNKNOWN_KIND
  }

  /** The dedup rules for one camera's fetched events. */
  function Decide(lastSeen: map<nat, string>, feed: CameraEvents): (d: Decision)
    // Nothing fetched: nothing changes.
    ensures feed.events.Err? || feed.events.value == [] ==> d == Decision(lastSeen, None)
    // The newest id is missing or already seen: nothing changes.
    ensures feed.events.Ok? && feed.events.value != [] ==>
              var id := EventId(feed.events.value[0]);
              var cam := feed.camera.id;
              && (id.None? || (cam in lastSeen && lastSeen[cam] == id.value) ==> d == Decision(lastSeen, None))
              // A new id is always recorded, ...
              && (id.Some? && !(cam in lastSeen && lastSeen[cam] == id.value) ==> d.lastSeen == lastSeen[cam := id.value])
              // ... but the first one per camera only sets the baseline, and old events are ignored.
              && (id.Some? && cam !in lastSeen ==> d.announce.None?)
              && (d.announce.Some? <==>
                    id.Some? && cam in lastSeen && lastSeen[cam] != id.value
                    && Fresh(feed.events.value[0].createdAt, feed.now))
              && (d.announce.Some? ==>
                    d.announce.value == Announcement(feed.camera, Kind(feed.events.value[0]),
                                                     EventTime(feed.events.value[0].createdAt, feed.now)))
  {
    if feed.events.Err? || feed.events.value == [] then Decision(lastSeen, None)
    else
      var latest := feed.events.value[0];
      var cam := feed.camera.id;
      match EventId(latest)
      case None => Decision(lastSeen, None)
      case Some(id) =>
        if cam in lastSeen && lastSeen[cam] == id then Decision(lastSeen, None)
        else
          var seen := lastSeen[cam := id];
          if cam !in lastSeen then Decision(seen, None)
          else if !Fresh(latest.createdAt, feed.now) then Decision(seen, None)
          else Decision(seen, Some(Announcement(feed.camera, Kind(latest), EventTime(latest.createdAt, feed.now))))
  }

  /** The notification for a kind and a timestamp: `ding` and `motion` are
      announced, every other kind only logged. */
  function Notify(camera: Camera, kind: string, timestampMs: int): (ns: seq<Notification>)
    ensures kind == "ding" ==> ns == [DoorbellRing(camera.id, camera.name, timestampMs)]
    ensures kind == "motion" ==> ns == [MotionDetected(camera.id, camera.name, timestampMs)]
    ensures kind != "ding" && kind != "motion" ==> ns == []
  {
    if kind == "ding" then [DoorbellRing(camera.id, camera.name, timestampMs)]
    else if kind == "motion" then [MotionDetected(camera.id, camera.name, timestampMs)]
    else []
  }

  /** server.js as written: for a ding or a motion event whose Date is
      invalid, `eventTime.toISOString()` throws before `io.emit`, and the
      per-camera catch swallows it (the baseline is already updated). */
  function PollCameraAsWritten(lastSeen: map<nat, string>, feed: CameraEvents): (r: PollStep)
    ensures r.lastSeen == Decide(lastSeen, feed).lastSeen
    ensures var d := Decide(lastSeen, feed);
            d.announce.None? || d.announce.value.time.None? ==> r.emitted == []
    ensures var d := Decide(lastSeen, feed);
            d.announce.Some? && d.announce.value.time.Some? ==>
              r.emitted == Notify(d.announce.value.camera, d.announce.value.kind, d.announce.value.time.value)
  {
    var d := Decide(lastSeen, feed);
    match d.announce
    case None => PollStep(d.lastSeen, [])
    case Some(a) =>
      if a.time.None? then PollStep(d.lastSeen, [])
      else PollStep(d.lastSeen, Notify(a.camera, a.kind, a.time.value))
  }

  /** The corrected announcement: an event whose Date is invalid, which
      `safeAge` already treats as age 0, is announced as happening now. */
  function PollCamera(lastSeen: map<nat, string>, feed: CameraEvents): (r: PollStep)
    ensures r.lastSeen == Decide(lastSeen, feed).lastSeen
    ensures Decide(lastSeen, feed).announce.None? ==> r.emitted == []
    ensures Decide(lastSeen, feed).announce.Some? ==>
              var a := Decide(lastSeen, feed).announce.value;
              r.emitted == Notify(a.camera, a.kind, if a.time.Some? then a.time.value else feed.now)
  {
    var d := Decide(lastSeen, feed);
    match d.announce
    case None => PollStep(d.lastSeen, [])
    case Some(a) => PollStep(d.lastSeen, Notify(a.camera, a.kind, if a.time.Some? then a.time.value else feed.now))
  }

  /** One camera's step: as written, or with the corrected announcement. */
  function PollOne(lastSeen: map<nat, string>, feed: CameraEvents, corrected: bool): (r: PollStep)
    ensures r.lastSeen == Decide(lastSeen, feed).lastSeen
    ensures Decide(lastSeen, feed).announce.None? ==> r.emitted == []
  {
    if corrected then PollCamera(lastSeen, feed) else PollCameraAsWritten(lastSeen, feed)
  }

  /** An event is announced at most once, as written and corrected alike:
      polling the same events again changes nothing and announces nothing. */
  lemma PollCameraIdempotent(lastSeen: map<nat, string>, feed: CameraEvents, later: int, corrected: bool)
    ensures var once := PollOne(lastSeen, feed, corrected);
            PollOne(once.lastSeen, feed.(now := later), corrected) == PollStep(once.lastSeen, [])
  {
  }

  /** The finding: an unparseable `created_at` on a new ding is aged 0, yet
      the source announces nothing, where the corrected poller rings. */
  lemma InvalidTimeIsSilenced()
    ensures var lastSeen := map[7 := "100"];
            var ev := RingEvent(Some("101"), None, DateText("not a date", None), Some("ding"));
            var feed := CameraEvents(Camera(7, "Front Door"), Ok([ev]), 5000);
            && SafeAgeMs(ev.createdAt, feed.now) == 0
            && PollCameraAsWritten(lastSeen, feed) == PollStep(map[7 := "101"], [])
            && PollCamera(lastSeen, feed) == PollStep(map[7 := "101"], [DoorbellRing(7, "Front Door", 5000)])
  {
    var lastSeen := map[7 := "100"];
    var ev := RingEvent(Some("101"), None, DateText("not a date", None), Some("ding"));
    var feed := CameraEvents(Camera(7, "Front Door"), Ok([ev]), 5000);
    assert EventId(ev) == Some("101");
    assert Kind(ev) == "ding";
    assert lastSeen[7 := "101"] == map[7 := "101"];
  }

  /** One run of `pollEvents` over the cameras, in order: each camera is
      polled from the map its predecessor left, and the announcements are
      concatenated.  `corrected` selects the step: `false` is server.js as
      written, `true` the corrected announcement. */
  function PollAll(lastSeen: map<nat, string>, feeds: seq<CameraEvents>, corrected: bool): (r: PollStep)
    ensures feeds == [] ==> r == PollStep(lastSeen, [])
    ensures feeds != [] ==>
              var p := PollAll(lastSeen, feeds[..|feeds| - 1], corrected);
              var q := PollOne(p.lastSeen, feeds[|feeds| - 1], corrected);
              r == PollStep(q.lastSeen, p.emitted + q.emitted)
    decreases |feeds|
  {
    if feeds == [] then PollStep(lastSeen, [])
    else
      var p := PollAll(lastSeen, feeds[..|feeds| - 1], corrected);
      var q := PollOne(p.lastSeen, feeds[|feeds| - 1], corrected);
      PollStep(q.lastSeen, p.emitted + q.emitted)
  }

  /** The correction changes only what is announced: both runs leave the same
      last-seen map. */
  lemma {:induction false} CorrectionKeepsLastSeen(lastSeen: map<nat, string>, feeds: seq<CameraEvents>)
    ensures PollAll(lastSeen, feeds, false).lastSeen == PollAll(lastSeen, feeds, true).lastSeen
    decreases |feeds|
  {
    if feeds != [] {
      CorrectionKeepsLastSeen(lastSeen, feeds[..|feeds| - 1]);
    }
  }

  predicate DistinctCameras(feeds: seq<CameraEvents>)
  {
    forall i, j :: 0 <= i < j < |feeds| ==> feeds[i].camera.id != feeds[j].camera.id
  }

  /** The initial run only sets baselines: starting from an empty map, a poll
      over distinct cameras announces nothing and records only their ids. */
  lemma {:induction false} FirstRunIsBaseline(feeds: seq<CameraEvents>, corrected: bool)
    requires DistinctCameras(feeds)
    ensures PollAll(map[], feeds, corrected).emitted == []
    ensures forall c :: c in PollAll(map[], feeds, corrected).lastSeen ==> exists i :: 0 <= i < |feeds| && feeds[i].camera.id == c
  {
    if feeds != [] {
      var init := feeds[..|feeds| - 1];
      assert DistinctCameras(init);
      FirstRunIsBaseline(init, corrected);
      var p := PollAll(map[], init, corrected);
      var last := feeds[|feeds| - 1];
      assert last.camera.id !in p.lastSeen;
      forall c | c in PollAll(map[], feeds, corrected).lastSeen
        ensures exists i :: 0 <= i < |feeds| && feeds[i].camera.id == c
      {
        if c != last.camera.id {
          assert c in p.lastSeen;
          var i :| 0 <= i < |init| && init[i].camera.id == c;
          assert feeds[i].camera.id == c;
        }
      }
    }
  }

  /** The `lastSeenEvents` map and the broadcasts of the polling loop. */
  class EventPoller {
    var lastSeenEvents: map<nat, string>
    var broadcasts: seq<Notification>

    constructor ()
      ensures lastSeenEvents == map[] && broadcasts == []
    {
      lastSeenEvents := map[];
      broadcasts := [];
    }

    /** `pollEvents` as written, with `cameras` the outcome of `getCameras`. */
    method PollEvents(cameras: Result<seq<CameraEvents>>)
      modifies this
      ensures cameras.Err? ==> lastSeenEvents == old(lastSeenEvents) && broadcasts == old(broadcasts)
      ensures cameras.Ok? ==>
                var p := PollAll(old(lastSeenEvents), cameras.value, false);
                lastSeenEvents == p.lastSeen && broadcasts == old(broadcasts) + p.emitted
    {
      if cameras.Err? {
        return;
      }
      var feeds := cameras.value;
      for i := 0 to |feeds|
        invariant var p := PollAll(old(lastSeenEvents), feeds[..i], false);
                  lastSeenEvents == p.lastSeen && broadcasts == old(broadcasts) + p.emitted
      {
        assert feeds[..i + 1][..i] == feeds[..i];
        var step := PollCameraAsWritten(lastSeenEvents, feeds[i]);
        lastSeenEvents := step.lastSeen;
        broadcasts := broadcasts + step.emitted;
      }
      assert feeds[..|feeds|] == feeds;
    }
  }
}
