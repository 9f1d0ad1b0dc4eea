/** The list selection of two HTTP endpoints of server.js:
    `/api/snapshots-list` (saved `.jpg` snapshots, newest first, at most 3)
    and `/api/events` (every camera's recent events, newest first, at most 20).

    `Array.prototype.sort` is stable; it is modelled by a stable insertion
    sort, `SortNewestFirst`, proved sorted and a permutation of its input.
    `Newest` is the `sort(...).slice(0, n)` selection, with its top-n
    property. */
module Listings {
  import opened Common

  const SNAPSHOT_LIMIT: nat := 3
  const EVENT_LIMIT: nat := 20
  const SNAPSHOT_URL_PREFIX: string := "/snapshots/"
  const JPG_SUFFIX: string := ".jpg"
  const SNAPSHOTS_FAILED: string := "Failed to list snapshots"
  const EVENTS_FAILED: string := "Failed to fetch events"

  /** An HTTP reply: a JSON array, or a status with `{ error }`. */
  datatype Response<T> = Json(body: seq<T>) | HttpError(status: nat, error: string)

  ghost predicate SortedDesc<T>(s: seq<T>, key: T -> int)
  {
    forall i, j :: 0 <= i < j < |s| ==> key(s[i]) >= key(s[j])
  }

  /** Inserts `x` before the first element whose key is not above its own. */
  function InsertDesc<T>(x: T, s: seq<T>, key: T -> int): (r: seq<T>)
    ensures multiset(r) == multiset(s) + multiset{x}
    ensures |r| == |s| + 1
    ensures r[0] == x || (s != [] && r[0] == s[0])
    ensures SortedDesc(s, key) ==> SortedDesc(r, key)
  {
    if s == [] then [x]
    else if key(x) >= key(s[0]) then
      assert SortedDesc(s, key) ==> SortedDesc([x] + s, key) by {
        if SortedDesc(s, key) { ConsSorted(x, s, key); }
      }
      [x] + s
    else
      var rest := InsertDesc(x, s[1..], key);
      assert s == [s[0]] + s[1..];
      assert SortedDesc(s, key) ==> SortedDesc([s[0]] + rest, key) by {
        if SortedDesc(s, key) {
          TailSorted(s, key);
          assert rest[0] == x || rest[0] == s[1];
          ConsSorted(s[0], rest, key);
        }
      }
      [s[0]] + rest
  }

  lemma TailSorted<T>(s: seq<T>, key: T -> int)
    requires s != [] && SortedDesc(s, key)
    ensures SortedDesc(s[1..], key)
  {
    forall i, j | 0 <= i < j < |s[1..]|
      ensures key(s[1..][i]) >= key(s[1..][j])
    {
      assert s[1..][i] == s[i + 1] && s[1..][j] == s[j + 1];
    }
  }

  /** A head no older than the first element of a newest-first sequence keeps it newest first. */
  lemma ConsSorted<T>(h: T, s: seq<T>, key: T -> int)
    requires SortedDesc(s, key) && (s != [] ==> key(h) >= key(s[0]))
    ensures SortedDesc([h] + s, key)
  {
    var r := [h] + s;
    forall i, j | 0 <= i < j < |r|
      ensures key(r[i]) >= key(r[j])
    {
      assert r[j] == s[j - 1];
      if i > 0 {
        assert r[i] == s[i - 1];
      } else if j > 1 {
        assert key(s[0]) >= key(s[j - 1]);
      }
    }
  }

  /** A stable sort on decreasing keys: the comparator `(a, b) => key(b) - key(a)`. */
  function SortNewestFirst<T>(s: seq<T>, key: T -> int): (r: seq<T>)
    ensures multiset(r) == multiset(s)
    ensures |r| == |s|
    ensures SortedDesc(r, key)
  {
    if s == [] then []
    else
      assert s == [s[0]] + s[1..];
      InsertDesc(s[0], SortNewestFirst(s[1..], key), key)
  }

  function Min(a: nat, b: nat): nat
  {
    if a <= b then a else b
  }

  /** `sort((a, b) => key(b) - key(a)).slice(0, n)`: the n newest elements,
      newest first.  Every element left out is no newer than every element
      kept. */
  function Newest<T>(s: seq<T>, n: nat, key: T -> int): (r: seq<T>)
    ensures |r| == Min(n, |s|)
    ensures SortedDesc(r, key)
    ensures multiset(r) <= multiset(s)
    ensures |s| <= n ==> multiset(r) == multiset(s)
    ensures forall x :: x in s && x !in r ==> forall y :: y in r ==> key(y) >= key(x)
  {
    var sorted := SortNewestFirst(s, key);
    var r := if |sorted| <= n then sorted else sorted[..n];
    assert r == sorted[..|r|];
    assert sorted == r + sorted[|r|..];
    PrefixIsNewest(s, sorted, |r|, key);
    r
  }

  /** In a newest-first arrangement of `s`, nothing of `s` outside a prefix
      is newer than anything inside it. */
  lemma PrefixIsNewest<T>(s: seq<T>, sorted: seq<T>, k: nat, key: T -> int)
    requires multiset(sorted) == multiset(s)
    requires SortedDesc(sorted, key) && k <= |sorted|
    ensures forall x :: x in s && x !in sorted[..k] ==> forall y :: y in sorted[..k] ==> key(y) >= key(x)
  {
    forall x | x in s && x !in sorted[..k]
      ensures forall y :: y in sorted[..k] ==> key(y) >= key(x)
    {
      assert x in multiset(sorted);
      var j :| 0 <= j < |sorted| && sorted[j] == x;
      PrefixMember(sorted, k, j);
      forall y | y in sorted[..k]
        ensures key(y) >= key(x)
      {
        var i :| 0 <= i < k && sorted[..k][i] == y;
        assert sorted[i] == y;
      }
    }
  }

  lemma PrefixMember<T>(s: seq<T>, n: nat, j: int)
    requires n <= |s| && 0 <= j < |s|
    ensures j < n ==> s[j] in s[..n]
  {
    if j < n {
      assert s[..n][j] == s[j];
    }
  }

  // ---- /api/snapshots-list ----

  /** A directory entry with its `fs.statSync(...).mtimeMs`. */
  datatype SnapshotFile = SnapshotFile(name: string, mtimeMs: int)

  datatype SnapshotEntry = SnapshotEntry(filename: string, path: string, time: int)

  /** The snapshot directory: missing, unreadable, or its files in `readdir` order. */
  datatype SnapshotDir = NoDirectory | ReadFailed | Files(files: seq<SnapshotFile>)

  function ToEntry(f: SnapshotFile): SnapshotEntry
  {
    SnapshotEntry(f.name, SNAPSHOT_URL_PREFIX + f.name, f.mtimeMs)
  }

  predicate IsJpg(f: SnapshotFile)
  {
    EndsWith(f.name, JPG_SUFFIX)
  }

  /** The number of `.jpg` files of a listing. */
  function JpgCount(files: seq<SnapshotFile>): nat
  {
    if files == [] then 0 else (if IsJpg(files[0]) then 1 else 0) + JpgCount(files[1..])
  }

  /** `files.filter(f => f.endsWith('.jpg')).map(...)`, in directory order. */
  function JpgEntries(files: seq<SnapshotFile>): (r: seq<SnapshotEntry>)
    ensures forall e :: e in r <==> exists f :: f in files && IsJpg(f) && e == ToEntry(f)
    ensures |r| == JpgCount(files)
  {
    if files == [] then []
    else
      var rest := JpgEntries(files[1..]);
      assert files == [files[0]] + files[1..];
      if IsJpg(files[0]) then [ToEntry(files[0])] + rest else rest
  }

  /** One entry per `.jpg` file, as often as the file is listed, and none
      for any other file. */
  lemma {:induction false} JpgEntriesMultiplicity(files: seq<SnapshotFile>)
    ensures forall f :: f in files ==> multiset(JpgEntries(files))[ToEntry(f)] == (if IsJpg(f) then multiset(files)[f] else 0)
  {
    if files != [] {
      var head, tail := files[0], files[1..];
      var rest := JpgEntries(tail);
      JpgEntriesMultiplicity(tail);
      assert files == [head] + tail;
      assert multiset(files) == multiset{head} + multiset(tail);
      assert multiset(JpgEntries(files)) == (if IsJpg(head) then multiset{ToEntry(head)} else multiset{}) + multiset(rest);
      forall f | f in files
        ensures multiset(JpgEntries(files))[ToEntry(f)] == (if IsJpg(f) then multiset(files)[f] else 0)
      {
        if f !in tail {
          assert f == head;
          assert ToEntry(f) !in rest;
        }
      }
    }
  }

  function EntryTime(e: SnapshotEntry): int
  {
    e.time
  }

  function SnapshotsList(dir: SnapshotDir): (r: Response<SnapshotEntry>)
    ensures dir.NoDirectory? ==> r == Json([])
    ensures dir.ReadFailed? ==> r == HttpError(500, SNAPSHOTS_FAILED)
    ensures dir.Files? ==>
              && r.Json? && |r.body| == Min(SNAPSHOT_LIMIT, JpgCount(dir.files))
              // Drawn from the `.jpg` entries, each at most as often as listed.
              && multiset(r.body) <= multiset(JpgEntries(dir.files))
              && SortedDesc(r.body, EntryTime)
              // Only `.jpg` files, each under its `/snapshots/` URL.
              && (forall e :: e in r.body ==>
                    && EndsWith(e.filename, JPG_SUFFIX) && e.path == SNAPSHOT_URL_PREFIX + e.filename
                    && SnapshotFile(e.filename, e.time) in dir.files)
              // No `.jpg` file left out is newer than one listed.
              && (forall f :: f in dir.files && EndsWith(f.name, JPG_SUFFIX) && ToEntry(f) !in r.body ==>
                    forall e :: e in r.body ==> e.time >= f.mtimeMs)
              // Fewer than three entries only when there are fewer `.jpg` files.
              && (|r.body| < SNAPSHOT_LIMIT ==>
                    forall f :: f in dir.files && EndsWith(f.name, JPG_SUFFIX) ==> ToEntry(f) in r.body)
  {
    match dir
    case NoDirectory => Json([])
    case ReadFailed => HttpError(500, SNAPSHOTS_FAILED)
    case Files(files) =>
      var body := Newest(JpgEntries(files), SNAPSHOT_LIMIT, EntryTime);
      SelectedAreListedJpgs(files, body);
      Json(body)
  }

  /** What the newest `.jpg` entries say about the directory listing. */
  lemma SelectedAreListedJpgs(files: seq<SnapshotFile>, body: seq<SnapshotEntry>)
    requires body == Newest(JpgEntries(files), SNAPSHOT_LIMIT, EntryTime)
    ensures forall e :: e in body ==>
              && EndsWith(e.filename, JPG_SUFFIX) && e.path == SNAPSHOT_URL_PREFIX + e.filename
              && SnapshotFile(e.filename, e.time) in files
    ensures |body| < SNAPSHOT_LIMIT ==> forall f :: f in files && EndsWith(f.name, JPG_SUFFIX) ==> ToEntry(f) in body
  {
    var entries := JpgEntries(files);
    forall e | e in body
      ensures EndsWith(e.filename, JPG_SUFFIX) && e.path == SNAPSHOT_URL_PREFIX + e.filename
      ensures SnapshotFile(e.filename, e.time) in files
    {
      assert e in multiset(entries);
      assert e in entries;
      var f :| f in files && IsJpg(f) && e == ToEntry(f);
      assert SnapshotFile(e.filename, e.time) == f;
    }
    if |body| < SNAPSHOT_LIMIT {
      forall f | f in files && EndsWith(f.name, JPG_SUFFIX)
        ensures ToEntry(f) in body
      {
        assert IsJpg(f);
        assert ToEntry(f) in entries;
        assert ToEntry(f) in multiset(body);
      }
    }
  }

  // ---- /api/events ----

  /** The fields of one account event that the endpoint copies; `createdAtMs`
      is `new Date(created_at)` in milliseconds. */
  datatype RawEvent = RawEvent(dingIdStr: Option<string>, kind: Option<string>, createdAtMs: int, hasRecording: bool)

  datatype CameraFeed = CameraFeed(deviceId: nat, deviceName: string, events: Result<seq<RawEvent>>)

  datatype ApiEvent = ApiEvent(id: Option<string>, deviceId: nat, deviceName: string, kind: Option<string>, createdAtMs: int, hasVideo: bool)

  function ToApiEvent(c: CameraFeed, e: RawEvent): ApiEvent
  {
    ApiEvent(e.dingIdStr, c.deviceId, c.deviceName, e.kind, e.createdAtMs, e.hasRecording)
  }

  function FeedEvents(c: CameraFeed): seq<ApiEvent>
  {
    if c.events.Err? then [] else seq(|c.events.value|, i requires 0 <= i < |c.events.value| => ToApiEvent(c, c.events.value[i]))
  }

  /** The number of events fetched from the cameras whose fetch succeeded. */
  function FetchedCount(cams: seq<CameraFeed>): nat
  {
    if cams == [] then 0
    else (if cams[0].events.Ok? then |cams[0].events.value| else 0) + FetchedCount(cams[1..])
  }

  /** `allEvents` after the per-camera loop: a camera whose fetch failed adds
      nothing, the others add their events in order. */
  function AllEvents(cams: seq<CameraFeed>): (r: seq<ApiEvent>)
    ensures |r| == FetchedCount(cams)
    ensures forall a :: a in r <==>
              exists i, j :: 0 <= i < |cams| && cams[i].events.Ok? && 0 <= j < |cams[i].events.value|
                             && a == ToApiEvent(cams[i], cams[i].events.value[j])
  {
    if cams == [] then []
    else
      var rest := AllEvents(cams[1..]);
      var r := FeedEvents(cams[0]) + rest;
      forall a | a in r
        ensures exists i, j :: 0 <= i < |cams| && cams[i].events.Ok? && 0 <= j < |cams[i].events.value|
                               && a == ToApiEvent(cams[i], cams[i].events.value[j])
      {
        if a in FeedEvents(cams[0]) {
          var j :| 0 <= j < |FeedEvents(cams[0])| && FeedEvents(cams[0])[j] == a;
          assert a == ToApiEvent(cams[0], cams[0].events.value[j]);
        } else {
          var i, j :| 0 <= i < |cams[1..]| && cams[1..][i].events.Ok? && 0 <= j < |cams[1..][i].events.value|
                      && a == ToApiEvent(cams[1..][i], cams[1..][i].events.value[j]);
          assert cams[i + 1] == cams[1..][i];
        }
      }
      forall i, j | 0 <= i < |cams| && cams[i].events.Ok? && 0 <= j < |cams[i].events.value|
        ensures ToApiEvent(cams[i], cams[i].events.value[j]) in r
      {
        if i == 0 {
          assert FeedEvents(cams[0])[j] == ToApiEvent(cams[i], cams[i].events.value[j]);
        } else {
          assert cams[1..][i - 1] == cams[i];
        }
      }
      r
  }

  function EventTime(a: ApiEvent): int
  {
    a.createdAtMs
  }

  /** `/api/events`, with `cameras` the outcome of `getCameras`. */
  function EventsList(cameras: Result<seq<CameraFeed>>): (r: Response<ApiEvent>)
    ensures cameras.Err? ==> r == HttpError(500, EVENTS_FAILED)
    ensures cameras.Ok? ==>
              && r.Json? && |r.body| == Min(EVENT_LIMIT, |AllEvents(cameras.value)|)
              && SortedDesc(r.body, EventTime)
              && multiset(r.body) <= multiset(AllEvents(cameras.value))
              && (forall a, b :: a in AllEvents(cameras.value) && a !in r.body && b in r.body ==>
                    b.createdAtMs >= a.createdAtMs)
  {
    if cameras.Err? then HttpError(500, EVENTS_FAILED)
    else Json(Newest(AllEvents(cameras.value), EVENT_LIMIT, EventTime))
  }
}
