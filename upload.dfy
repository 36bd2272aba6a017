/**
 * `upload_video` (upload_vids.py): generate the metadata, build the body of
 * the `videos().insert` call and submit it. The submission (a resumable
 * media upload over the network) is reduced to its success or failure.
 */
module Upload {
  import opened Wrappers
  import opened Calendar
  import opened IsoDateTime
  import opened Text
  import opened Metadata

  datatype Snippet = Snippet(title: string, description: string, categoryId: string)

  datatype Status = Status(privacyStatus: string, publishAt: string, selfDeclaredMadeForKids: bool)

  datatype RequestBody = RequestBody(snippet: Snippet, status: Status)

  /** The arguments of `youtube.videos().insert(part=..., body=..., media_body=...)`. */
  datatype InsertCall = InsertCall(part: string, body: RequestBody, mediaPath: string)

  /** The platform's "Science & Technology" category. */
  const ScienceAndTechnology := "28"

  /**
   * The request body: the metadata unchanged, a fixed category, private
   * (scheduling requires it), published at the slot, not made for kids.
   */
  function RequestBodyFor(meta: Metadata, slot: DateTime): (r: RequestBody)
    requires slot.Valid()
    ensures r.snippet.title == meta.title && r.snippet.description == meta.description
    ensures r.snippet.categoryId == "28"
    ensures r.status.privacyStatus == "private" && !r.status.selfDeclaredMadeForKids
    ensures r.status.publishAt == PublishAt(slot) && ParsePublishAt(r.status.publishAt) == Some(slot)
  {
    PublishAtRoundTrip(slot);
    RequestBody(Snippet(meta.title, meta.description, ScienceAndTechnology),
                Status("private", PublishAt(slot), false))
  }

  /** The test's slot, 2026-01-24 at noon, is sent as "2026-01-24T12:00:00Z". */
  lemma RequestBodyExample(meta: Metadata)
    ensures RequestBodyFor(meta, DateTime(2026, 1, 24, 12, 0, 0, 0)).status.publishAt == "2026-01-24T12:00:00Z"
  {
    PublishAtExample();
  }

  /** What the per-video foreign calls do, for one video. */
  datatype VideoEnv = VideoEnv(
    frameRead: bool,                 // cv2.VideoCapture(...).read() returned ret == True
    transcription: Transcription,    // Whisper's segments, or its exception
    chat: string -> ChatReply,       // the model's parsed reply for a transcript
    submitSucceeds: bool)            // request.execute() returned rather than raised

  datatype UploadError =
    | MetadataFailed  // the transcription exception escaped generate_metadata
    | SubmitFailed    // the insert call raised

  /** Upload succeeds exactly when the metadata step returns and the platform accepts the call. */
  predicate UploadSucceeds(env: VideoEnv) {
    env.submitSucceeds && (!env.frameRead || env.transcription.Segments?)
  }

  /** `upload_video(youtube, path, slot)`: the call it made, or the exception it raised. */
  function UploadVideo(path: string, env: VideoEnv, slot: DateTime): (r: Result<InsertCall, UploadError>)
    requires slot.Valid()
    ensures r.Success? <==> UploadSucceeds(env)
    ensures r.Success? ==>
      var body := r.value.body;
      r.value.part == "snippet,status" && r.value.mediaPath == path &&
      ParsePublishAt(body.status.publishAt) == Some(slot) &&
      body.status.privacyStatus == "private" && EndsWith(body.snippet.description, ShortsTag)
    ensures r.Success? ==>
      var outcome := GenerateMetadata(env.frameRead, env.transcription, env.chat);
      outcome.Generated? && r.value.body == RequestBodyFor(outcome.meta, slot)
  {
    match GenerateMetadata(env.frameRead, env.transcription, env.chat)
    case MetadataRaised => Failure(MetadataFailed)
    case Generated(meta, _) =>
      DescriptionEndsWithTag(env.frameRead, env.transcription, env.chat);
      if env.submitSucceeds then Success(InsertCall("snippet,status", RequestBodyFor(meta, slot), path))
      else Failure(SubmitFailed)
  }
}
