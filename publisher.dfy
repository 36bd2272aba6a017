/**
 * The batch run of `main` (upload_vids.py): list the video files, take the
 * next slot from the schedule cursor, then upload the videos in order. After
 * each successful upload the source file is deleted, the slot just used is
 * written to the state file and the in-memory cursor moves on by one day;
 * the first exception stops the batch.
 *
 * `PublishBatch` is the specification of the loop as a function on values;
 * the class `Publisher` runs the loop over its mutable state and is proved to
 * end in the state `PublishBatch` gives. The lemmas below state what a batch
 * does to the folder, the state file, the cursor and the uploads.
 */
module Publisher {
  import opened Wrappers
  import opened Calendar
  import opened IsoDateTime
  import opened Text
  import opened Upload
  import opened Schedule
  import opened Metadata

  const VideoFolder := "videos"

  /** `os.path.join(VIDEO_FOLDER, name)` for a name `os.listdir` returned. */
  function VideoPath(name: string): string {
    VideoFolder + "/" + name
  }

  /** `name.endswith(('.mp4', '.mov'))`; the test is case-sensitive. */
  predicate IsVideoFile(name: string) {
    EndsWith(name, ".mp4") || EndsWith(name, ".mov")
  }

  /** The list comprehension that keeps the video files of a directory listing, in listing order. */
  function VideoFiles(listing: seq<string>): (videos: seq<string>)
    ensures forall f :: f in videos <==> f in listing && IsVideoFile(f)
    ensures |videos| <= |listing|
  {
    if listing == [] then []
    else (if IsVideoFile(listing[0]) then [listing[0]] else []) + VideoFiles(listing[1..])
  }

  /** Filtering keeps the listing's order: filtering a concatenation concatenates the filtered parts. */
  lemma {:induction false} VideoFilesConcat(a: seq<string>, b: seq<string>)
    ensures VideoFiles(a + b) == VideoFiles(a) + VideoFiles(b)
  {
    if a != [] {
      var head := if IsVideoFile(a[0]) then [a[0]] else [];
      assert (a + b)[0] == a[0] && (a + b)[1..] == a[1..] + b;
      assert VideoFiles(a + b) == head + VideoFiles(a[1..] + b);
      VideoFilesConcat(a[1..], b);
      assert VideoFiles(a) == head + VideoFiles(a[1..]);
    } else {
      assert a + b == b;
    }
  }

  predicate Distinct(s: seq<string>) {
    forall i, j :: 0 <= i < j < |s| ==> s[i] != s[j]
  }

  /** A listing without repeated names (as `os.listdir` gives) yields each video once. */
  lemma {:induction false} VideoFilesDistinct(listing: seq<string>)
    requires Distinct(listing)
    ensures Distinct(VideoFiles(listing))
  {
    if listing != [] {
      VideoFilesDistinct(listing[1..]);
      assert listing[0] !in listing[1..];
    }
  }

  /** The state a batch acts on: the files in the folder, the state file, the cursor, and the uploads made so far. */
  datatype Batch = Batch(folder: set<string>, stateFile: StateFile, cursor: DateTime, published: seq<InsertCall>)

  /** One turn of the loop either continues with the next video or leaves it (`break`). */
  datatype Step = Continue(next: Batch) | Stop(last: Batch)

  /** `upload_video(youtube, path, slot)` as the loop sees it: the call made, or the exception raised. */
  type Uploader = (string, VideoEnv, DateTime) --> Result<InsertCall, UploadError>

  /** The date-time a recorded upload is scheduled for. */
  function ScheduledFor(call: InsertCall): Option<DateTime> {
    ParsePublishAt(call.body.status.publishAt)
  }

  /**
   * What the loop relies on from one upload: it raises exactly when the
   * upload of that video cannot succeed, and the call it makes uploads the
   * given file.
   */
  predicate Behaves(r: Result<InsertCall, UploadError>, path: string, env: VideoEnv) {
    (r.Success? <==> UploadSucceeds(env)) && (r.Success? ==> r.value.mediaPath == path)
  }

  /** An upload function that can be called at every valid slot and behaves so there. */
  ghost predicate Honest(upload: Uploader) {
    forall path: string, env: VideoEnv, slot: DateTime :: slot.Valid() ==>
      upload.requires(path, env, slot) && Behaves(upload(path, env, slot), path, env)
  }

  /** `upload_video` as modelled is such a function. */
  lemma UploadVideoHonest()
    ensures Honest(UploadVideo)
  {
    forall path: string, env: VideoEnv, slot: DateTime | slot.Valid()
      ensures Behaves(UploadVideo(path, env, slot), path, env)
    {
    }
  }

  /**
   * One turn of the loop for `name`: upload; on success delete the file,
   * persist the slot just used, then add a day to the cursor. An exception
   * anywhere, the day overflow included, is caught and ends the batch.
   */
  function PublishOne(upload: Uploader, b: Batch, name: string, env: VideoEnv): (s: Step)
    requires b.cursor.Valid() && Honest(upload)
    ensures s.Continue? ==> s.next.cursor.Valid()
    ensures s.Stop? ==> s.last.cursor.Valid()
  {
    match upload(VideoPath(name), env, b.cursor)
    case Failure(_) => Stop(b)
    case Success(call) =>
      var done := b.(folder := b.folder - {name},
                     stateFile := StateRecord(IsoFormat(b.cursor)),
                     published := b.published + [call]);
      match NextDay(b.cursor)
      case None => Stop(done)
      case Some(next) => Continue(done.(cursor := next))
  }

  /** The loop `for video in videos`, as a function of the state it starts from. */
  function PublishBatch(upload: Uploader, b: Batch, names: seq<string>, envs: seq<VideoEnv>): (r: Batch)
    requires b.cursor.Valid() && Honest(upload) && |names| == |envs|
    ensures r.cursor.Valid()
    decreases |names|
  {
    if names == [] then b
    else match PublishOne(upload, b, names[0], envs[0])
      case Stop(last) => last
      case Continue(next) => PublishBatch(upload, next, names[1..], envs[1..])
  }

  /** Index of the first video whose upload raises, or the number of videos when none does. */
  function FirstFailure(envs: seq<VideoEnv>): (k: nat)
    ensures k <= |envs|
    ensures forall j :: 0 <= j < k ==> UploadSucceeds(envs[j])
    ensures k < |envs| ==> !UploadSucceeds(envs[k])
  {
    if envs == [] || !UploadSucceeds(envs[0]) then 0 else 1 + FirstFailure(envs[1..])
  }

  /** The names of the first `k` videos. */
  function Done(names: seq<string>, k: nat): (done: set<string>)
    requires k <= |names|
    ensures forall f :: f in done <==> f in names[..k]
  {
    if k == 0 then {} else
      assert names[..k] == [names[0]] + names[1..][..k - 1];
      {names[0]} + Done(names[1..], k - 1)
  }

  /** A successful upload before the last representable day continues the loop with the file deleted and the slot persisted. */
  lemma SuccessStep(upload: Uploader, b: Batch, names: seq<string>, envs: seq<VideoEnv>)
    requires b.cursor.Valid() && Honest(upload) && |names| == |envs| && names != []
    requires UploadSucceeds(envs[0]) && !IsLastRepresentableDay(b.cursor)
    ensures var s := PublishOne(upload, b, names[0], envs[0]);
      s.Continue? &&
      s.next == Batch(b.folder - {names[0]}, StateRecord(IsoFormat(b.cursor)), NextDay(b.cursor).value,
                      b.published + [upload(VideoPath(names[0]), envs[0], b.cursor).value]) &&
      PublishBatch(upload, b, names, envs) == PublishBatch(upload, s.next, names[1..], envs[1..])
  {
    assert Behaves(upload(VideoPath(names[0]), envs[0], b.cursor), VideoPath(names[0]), envs[0]);
  }

  /** Exactly the first k files are deleted. */
  lemma {:induction false} BatchFiles(upload: Uploader, b: Batch, names: seq<string>, envs: seq<VideoEnv>)
    requires b.cursor.Valid() && Honest(upload) && |names| == |envs|
    requires AddDays(b.cursor, FirstFailure(envs)).Some?
    ensures PublishBatch(upload, b, names, envs).folder == b.folder - Done(names, FirstFailure(envs))
    decreases |names|
  {
    var k := FirstFailure(envs);
    if names != [] && UploadSucceeds(envs[0]) {
      SuccessStep(upload, b, names, envs);
      var next := PublishOne(upload, b, names[0], envs[0]).next;
      AddDaysFirst(b.cursor, k - 1);
      BatchFiles(upload, next, names[1..], envs[1..]);
      RemoveBoth(b.folder, names[0], Done(names[1..], k - 1));
    } else if names != [] {
      assert Behaves(upload(VideoPath(names[0]), envs[0], b.cursor), VideoPath(names[0]), envs[0]);
    }
  }

  lemma RemoveBoth(folder: set<string>, name: string, rest: set<string>)
    ensures folder - {name} - rest == folder - ({name} + rest)
  {
  }

  /**
   * The state file holds the last slot used (untouched when nothing was
   * uploaded), and the cursor stands k days after the first slot.
   */
  lemma {:induction false} BatchSchedule(upload: Uploader, b: Batch, names: seq<string>, envs: seq<VideoEnv>)
    requires b.cursor.Valid() && Honest(upload) && |names| == |envs|
    requires AddDays(b.cursor, FirstFailure(envs)).Some?
    ensures var k := FirstFailure(envs);
      var r := PublishBatch(upload, b, names, envs);
      (k == 0 ==> r.stateFile == b.stateFile) &&
      (k > 0 ==> AddDays(b.cursor, k - 1).Some? &&
                 r.stateFile == StateRecord(IsoFormat(AddDays(b.cursor, k - 1).value))) &&
      r.cursor == AddDays(b.cursor, k).value
    decreases |names|
  {
    var k := FirstFailure(envs);
    if names != [] && UploadSucceeds(envs[0]) {
      SuccessStep(upload, b, names, envs);
      var next := PublishOne(upload, b, names[0], envs[0]).next;
      AddDaysFirst(b.cursor, k - 1);
      BatchSchedule(upload, next, names[1..], envs[1..]);
      if k > 1 {
        AddDaysFirst(b.cursor, k - 2);
      }
    } else if names != [] {
      assert Behaves(upload(VideoPath(names[0]), envs[0], b.cursor), VideoPath(names[0]), envs[0]);
    }
  }

  /**
   * The calls made for the first k videos, the first at slot `c` and each
   * next one a day later, when each of them succeeds.
   */
  function Uploads(upload: Uploader, c: DateTime, names: seq<string>, envs: seq<VideoEnv>, k: nat): (calls: seq<InsertCall>)
    requires c.Valid() && Honest(upload) && |names| == |envs| && k <= FirstFailure(envs) && AddDays(c, k).Some?
    ensures |calls| == k
    decreases k
  {
    if k == 0 then []
    else
      assert UploadSucceeds(envs[0]) && FirstFailure(envs[1..]) == FirstFailure(envs) - 1;
      assert Behaves(upload(VideoPath(names[0]), envs[0], c), VideoPath(names[0]), envs[0]);
      AddDaysFirst(c, k - 1);
      [upload(VideoPath(names[0]), envs[0], c).value] + Uploads(upload, NextDay(c).value, names[1..], envs[1..], k - 1)
  }

  lemma UploadsFirst(upload: Uploader, c: DateTime, names: seq<string>, envs: seq<VideoEnv>, k: nat)
    requires c.Valid() && Honest(upload) && |names| == |envs| && 0 < k <= FirstFailure(envs) && AddDays(c, k).Some?
    ensures !IsLastRepresentableDay(c) && UploadSucceeds(envs[0]) && FirstFailure(envs[1..]) == FirstFailure(envs) - 1
    ensures AddDays(NextDay(c).value, k - 1).Some? && upload(VideoPath(names[0]), envs[0], c).Success?
    ensures Uploads(upload, c, names, envs, k)
         == [upload(VideoPath(names[0]), envs[0], c).value] + Uploads(upload, NextDay(c).value, names[1..], envs[1..], k - 1)
  {
    assert Behaves(upload(VideoPath(names[0]), envs[0], c), VideoPath(names[0]), envs[0]);
    AddDaysFirst(c, k - 1);
  }

  lemma AppendOne(s: seq<InsertCall>, x: InsertCall, t: seq<InsertCall>)
    ensures (s + [x]) + t == s + ([x] + t)
  {
  }

  /** The uploads made are, in order, those of the first k videos; earlier uploads are kept. */
  lemma {:induction false} BatchUploads(upload: Uploader, b: Batch, names: seq<string>, envs: seq<VideoEnv>)
    requires b.cursor.Valid() && Honest(upload) && |names| == |envs|
    requires AddDays(b.cursor, FirstFailure(envs)).Some?
    ensures PublishBatch(upload, b, names, envs).published
         == b.published + Uploads(upload, b.cursor, names, envs, FirstFailure(envs))
    decreases |names|
  {
    var k := FirstFailure(envs);
    if names != [] && UploadSucceeds(envs[0]) {
      SuccessStep(upload, b, names, envs);
      var next := PublishOne(upload, b, names[0], envs[0]).next;
      UploadsFirst(upload, b.cursor, names, envs, k);
      BatchUploads(upload, next, names[1..], envs[1..]);
      AppendOne(b.published, upload(VideoPath(names[0]), envs[0], b.cursor).value,
                Uploads(upload, next.cursor, names[1..], envs[1..], k - 1));
    } else if names != [] {
      assert Behaves(upload(VideoPath(names[0]), envs[0], b.cursor), VideoPath(names[0]), envs[0]);
    }
  }

  /** The j-th of those calls is the upload of the j-th video at the slot j days after the first. */
  lemma {:induction false} UploadsAt(upload: Uploader, c: DateTime, names: seq<string>, envs: seq<VideoEnv>, k: nat, j: nat)
    requires c.Valid() && Honest(upload) && |names| == |envs| && k <= FirstFailure(envs) && AddDays(c, k).Some?
    requires j < k
    ensures AddDays(c, j).Some? &&
      Uploads(upload, c, names, envs, k)[j] == upload(VideoPath(names[j]), envs[j], AddDays(c, j).value).value
    decreases k
  {
    AddDaysFirst(c, k - 1);
    AddDaysPrefix(c, j, k);
    if j > 0 {
      AddDaysFirst(c, j - 1);
      UploadsAt(upload, NextDay(c).value, names[1..], envs[1..], k - 1, j - 1);
    }
  }

  /**
   * The j-th upload of the batch uploads the j-th file at the slot j days
   * after the first.
   */
  lemma BatchCalls(upload: Uploader, b: Batch, names: seq<string>, envs: seq<VideoEnv>)
    requires b.cursor.Valid() && Honest(upload) && |names| == |envs|
    requires AddDays(b.cursor, FirstFailure(envs)).Some?
    ensures var k := FirstFailure(envs);
      var r := PublishBatch(upload, b, names, envs);
      var n0 := |b.published|;
      |r.published| == n0 + k && r.published[..n0] == b.published &&
      forall j :: 0 <= j < k ==>
        AddDays(b.cursor, j).Some? &&
        r.published[n0 + j] == upload(VideoPath(names[j]), envs[j], AddDays(b.cursor, j).value).value
  {
    var k := FirstFailure(envs);
    var calls := Uploads(upload, b.cursor, names, envs, k);
    BatchUploads(upload, b, names, envs);
    var n0 := |b.published|;
    var r := PublishBatch(upload, b, names, envs);
    assert r.published[..n0] == b.published;
    forall j | 0 <= j < k
      ensures AddDays(b.cursor, j).Some? &&
        r.published[n0 + j] == upload(VideoPath(names[j]), envs[j], AddDays(b.cursor, j).value).value
    {
      UploadsAt(upload, b.cursor, names, envs, k, j);
      assert r.published[n0 + j] == calls[j];
    }
  }

  /**
   * With `upload_video` itself, the j-th upload of the batch sends the j-th
   * file with the metadata generated for it, scheduled j days after the first
   * slot at the same time of day: one video a day.
   */
  lemma PublishedSlots(b: Batch, names: seq<string>, envs: seq<VideoEnv>, j: nat)
    requires b.cursor.Valid() && |names| == |envs|
    requires AddDays(b.cursor, FirstFailure(envs)).Some? && j < FirstFailure(envs)
    ensures var r := PublishBatch(UploadVideo, b, names, envs);
      |b.published| + j < |r.published| &&
      var call := r.published[|b.published| + j];
      call.mediaPath == VideoPath(names[j]) && ScheduledFor(call).Some? &&
      Ordinal(ScheduledFor(call).value) == Ordinal(b.cursor) + j &&
      SameTimeOfDay(ScheduledFor(call).value, b.cursor) &&
      var env := envs[j];
      var outcome := GenerateMetadata(env.frameRead, env.transcription, env.chat);
      outcome.Generated? && call.body == RequestBodyFor(outcome.meta, ScheduledFor(call).value)
  {
    UploadVideoHonest();
    BatchCalls(UploadVideo, b, names, envs);
    AddDaysOrdinal(b.cursor, j);
  }

  /**
   * With distinct names, the videos before the first failure are gone from
   * the folder and that video and every later one are where they were.
   */
  lemma FilesAfterBatch(upload: Uploader, b: Batch, names: seq<string>, envs: seq<VideoEnv>)
    requires b.cursor.Valid() && Honest(upload) && |names| == |envs| && Distinct(names)
    requires AddDays(b.cursor, FirstFailure(envs)).Some?
    ensures var k := FirstFailure(envs);
      var r := PublishBatch(upload, b, names, envs);
      (forall j :: 0 <= j < k ==> names[j] !in r.folder) &&
      (forall j :: k <= j < |names| ==> (names[j] in r.folder <==> names[j] in b.folder))
  {
    BatchFiles(upload, b, names, envs);
    var k := FirstFailure(envs);
    forall j | 0 <= j < k ensures names[j] in Done(names, k) {
      assert names[..k][j] == names[j];
    }
    forall j | k <= j < |names| ensures names[j] !in Done(names, k) {
      assert forall i :: 0 <= i < k ==> names[..k][i] != names[j];
    }
  }

  /**
   * A later run resumes where this one stopped: after a batch that uploaded
   * at least one video, the slot the next run reads from the state file is
   * the day after the last slot used, which is the cursor this run ended with.
   */
  lemma ResumeNextRun(upload: Uploader, b: Batch, names: seq<string>, envs: seq<VideoEnv>, now: DateTime)
    requires b.cursor.Valid() && b.cursor.IsNoon() && Honest(upload) && |names| == |envs| && now.Valid()
    requires FirstFailure(envs) > 0
    requires AddDays(b.cursor, FirstFailure(envs)).Some?
    ensures var r := PublishBatch(upload, b, names, envs);
      NextScheduleTime(r.stateFile, now) == Success(r.cursor)
  {
    var k := FirstFailure(envs);
    BatchSchedule(upload, b, names, envs);
    var last := AddDays(b.cursor, k - 1).value;
    AddDaysLast(b.cursor, k - 1);
    ParseIsoFormat(last);
    var r := PublishBatch(upload, b, names, envs);
    assert NextDay(last) == Some(r.cursor);
    assert AtNoon(r.cursor) == r.cursor;
  }

  /**
   * On the last day the calendar can represent, a successful upload still
   * deletes the file and persists the slot; the day increment then raises
   * OverflowError, which the loop's handler catches, ending the batch with
   * the cursor unchanged.
   */
  lemma OverflowEndsBatch(upload: Uploader, b: Batch, names: seq<string>, envs: seq<VideoEnv>)
    requires b.cursor.Valid() && IsLastRepresentableDay(b.cursor) && Honest(upload) && |names| == |envs|
    requires names != [] && UploadSucceeds(envs[0])
    ensures var r := PublishBatch(upload, b, names, envs);
      r.folder == b.folder - {names[0]} && r.stateFile == StateRecord(IsoFormat(b.cursor)) &&
      r.cursor == b.cursor && |r.published| == |b.published| + 1
  {
    assert Behaves(upload(VideoPath(names[0]), envs[0], b.cursor), VideoPath(names[0]), envs[0]);
  }

  /**
   * The uploader's process state: the files in the video folder, the state
   * file, the in-memory cursor `current_schedule` (None before it is read),
   * and the uploads the platform has accepted.
   */
  class Publisher {
    var folder: set<string>
    var stateFile: StateFile
    var cursor: Option<DateTime>
    var published: seq<InsertCall>

    ghost predicate Valid()
      reads this
    {
      cursor.Some? ==> cursor.value.Valid()
    }

    function Snapshot(): Batch
      reads this
      requires cursor.Some?
    {
      Batch(folder, stateFile, cursor.value, published)
    }

    constructor (files: set<string>, state: StateFile)
      ensures Valid()
      ensures folder == files && stateFile == state && cursor == None && published == []
    {
      folder := files;
      stateFile := state;
      cursor := None;
      published := [];
    }

    /** `current_schedule = get_next_schedule_time()`; an error leaves the cursor as it was. */
    method LoadSchedule(now: DateTime) returns (err: Option<ScheduleError>)
      requires Valid() && now.Valid()
      modifies this`cursor
      ensures Valid()
      ensures match NextScheduleTime(stateFile, now)
        case Success(slot) => cursor == Some(slot) && err == None
        case Failure(e) => cursor == old(cursor) && err == Some(e)
    {
      match NextScheduleTime(stateFile, now)
      case Success(slot) =>
        cursor := Some(slot);
        err := None;
      case Failure(e) =>
        err := Some(e);
    }

    /** The `for video in videos` loop of `main`. */
    method PublishAll(videos: seq<string>, envs: seq<VideoEnv>)
      requires Valid() && cursor.Some? && |videos| == |envs|
      modifies this
      ensures Valid() && cursor.Some?
      ensures Snapshot() == PublishBatch(UploadVideo, old(Snapshot()), videos, envs)
    {
      UploadVideoHonest();
      ghost var start := Snapshot();
      var i := 0;
      while i < |videos|
        invariant 0 <= i <= |videos|
        invariant Valid() && cursor.Some?
        invariant PublishBatch(UploadVideo, Snapshot(), videos[i..], envs[i..]) == PublishBatch(UploadVideo, start, videos, envs)
        decreases |videos| - i
      {
        ghost var before := Snapshot();
        assert videos[i..][1..] == videos[i + 1..] && envs[i..][1..] == envs[i + 1..];
        var slot := cursor.value;
        var outcome := UploadVideo(VideoPath(videos[i]), envs[i], slot);
        if outcome.Failure? {
          assert PublishOne(UploadVideo, before, videos[i], envs[i]) == Stop(before);
          break;
        }
        folder := folder - {videos[i]};
        stateFile := StateRecord(IsoFormat(slot));
        published := published + [outcome.value];
        var next := NextDay(slot);
        if next.None? {
          assert PublishOne(UploadVideo, before, videos[i], envs[i]) == Stop(Snapshot());
          break;
        }
        cursor := Some(next.value);
        assert PublishOne(UploadVideo, before, videos[i], envs[i]) == Continue(Snapshot());
        i := i + 1;
      }
    }

    /**
     * `main` after authentication: keep the video files of the listing,
     * read the first slot (an error there ends the run before any upload),
     * then run the loop.
     */
    method Run(listing: seq<string>, now: DateTime, envs: seq<VideoEnv>) returns (err: Option<ScheduleError>)
      requires Valid() && now.Valid() && |envs| == |VideoFiles(listing)|
      modifies this
      ensures Valid()
      ensures match NextScheduleTime(old(stateFile), now)
        case Failure(e) =>
          err == Some(e) && folder == old(folder) && stateFile == old(stateFile) && cursor == old(cursor) &&
          published == old(published)
        case Success(slot) =>
          err == None && cursor.Some? &&
          Snapshot() == PublishBatch(UploadVideo, Batch(old(folder), old(stateFile), slot, old(published)), VideoFiles(listing), envs)
    {
      var videos := VideoFiles(listing);
      err := LoadSchedule(now);
      if err.None? {
        PublishAll(videos, envs);
      }
    }
  }
}
