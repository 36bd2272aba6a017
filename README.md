# Scheduled Shorts uploader, modelled in Dafny

`upload_vids.py` uploads every video file it finds in the `videos` folder to
the platform. Each video is a private upload, scheduled for noon, one day
after the previous one. For each video the script:

1. reads a frame and transcribes the audio;
2. asks a local language model for a title and a description;
3. falls back to fixed texts when no frame can be read or when the model
   step fails (a transcription failure is not caught: it fails the upload);
4. tags every description with `#shorts`;
5. after a successful upload, deletes the file and writes the slot it used
   to `schedule_state.json`, so the next run continues the day after.

The first upload that raises stops the batch.

The model has seven modules, plus `Wrappers` (`Option` and `Result`):

- **Calendar** (`calendar.dfy`): Python's naive `datetime` in the
  proleptic Gregorian calendar. It covers the day successor
  (`+ timedelta(days=1)`), which overflows past 9999-12-31, and
  `replace(hour=12, …)`. `Ordinal` (Python's `toordinal()`) is the
  independent reference for the day successor.
- **IsoDateTime** (`iso_format.dfy`): `isoformat()`, the matching
  `fromisoformat` reading, and the `publishAt` text. `publishAt` is the
  isoformat text plus `Z`, the date-time form of section 5.6 of RFC 3339.
- **Text** (`text.dfy`): `str.strip()` (Python's whitespace set),
  `endswith`, and `in` on strings.
- **Metadata** (`metadata.dfy`): the transcript join of `get_transcript`
  and the decision ladder of `generate_metadata`. Its inputs are the
  outcomes of OpenCV, Whisper and the Ollama chat call.
- **Schedule** (`schedule.dfy`): `get_next_schedule_time`, with the clock
  passed in as a parameter.
- **Upload** (`upload.dfy`): the `videos().insert` request that
  `upload_video` builds. The submission itself is reduced to success or
  failure.
- **Publisher** (`publisher.dfy`): `main`, in three parts:
  - the extension filter;
  - `PublishBatch`, the loop as a function on values, with lemmas about
    what a batch does;
  - the class `Publisher`, whose fields are the folder, the state file,
    the in-memory cursor and the accepted uploads. Its method `PublishAll`
    runs the loop and is proved to end in the state `PublishBatch` gives.

The batch lemmas hold for any upload function that raises exactly when that
video's upload cannot succeed and that uploads the file it was given
(`Honest`). `UploadVideoHonest` proves that `UploadVideo` is such a function.
`PublishedSlots` applies the lemmas to `UploadVideo` itself.

Where the code and its design description disagree, the model follows the
code:

- An object missing `title` or `description` yields the description
  `"Cool video #shorts #shorts"`, with the tag twice.
- A transcription exception escapes `generate_metadata`, because it is not
  inside the `try`. So it ends the whole batch instead of falling back to
  default texts.
- Credentials are never stored or refreshed. Every run authenticates from
  scratch, so there is no credential state to model.

## Model

| member | source | states |
|---|---|---|
| Calendar.NextDay | upload_vids.py:32 | adding a day fails (OverflowError) exactly on 9999-12-31; otherwise the result is a valid date-time with the same time of day |
| Calendar.NextDayOrdinal | upload_vids.py:32 | the day after `t` has day number `toordinal(t) + 1` (month, year and leap-day roll-over included) |
| Calendar.AddDays | upload_vids.py:171 | repeated increments of the cursor keep it valid and keep its time of day |
| Calendar.AddDaysOrdinal | upload_vids.py:171 | n increments move the cursor exactly n day numbers on |
| Calendar.AtNoon | upload_vids.py:39 | `replace(hour=12, minute=0, second=0, microsecond=0)` is valid, exactly noon, on the same date |
| IsoDateTime.IsoFormat | upload_vids.py:168 | `isoformat()` writes 19 characters, or 26 when the microseconds are not zero |
| IsoDateTime.ParseIso | upload_vids.py:31 | whatever `fromisoformat` accepts is a valid date-time |
| IsoDateTime.ParseIsoFormat | upload_vids.py:168 | reading back the persisted `isoformat()` text gives the same date-time |
| IsoDateTime.FormatParseIso | upload_vids.py:31 | formatting an accepted text gives it back (minus a `.000000` fraction, which `isoformat` never writes) |
| IsoDateTime.PublishAt | upload_vids.py:131 | `isoformat() + "Z"`; no contract of its own: Upload.RequestBodyFor sends it and IsoDateTime.PublishAtRoundTrip and IsoDateTime.PublishAtExample state what it denotes |
| IsoDateTime.ParsePublishAt | upload_vids.py:131 | the date-time a `publishAt` text denotes, the reading of the `Z` form; IsoDateTime.PublishAtRoundTrip states it inverts IsoDateTime.PublishAt |
| IsoDateTime.PublishAtRoundTrip | upload_vids.py:131 | the `publishAt` text denotes exactly the slot it was built from |
| IsoDateTime.IsoFormatExample | tests/test_scheduling.py:42 | 2026-01-24 at noon is written `2026-01-24T12:00:00` |
| IsoDateTime.PublishAtExample | tests/test_upload_vids.py:48-62 | the test's slot gives `publishAt` = `2026-01-24T12:00:00Z` |
| Text.TrimStart | upload_vids.py:111 | `lstrip()`; no contract of its own: its meaning is stated by Text.TrimStartSpec |
| Text.TrimEnd | upload_vids.py:111 | `rstrip()`; no contract of its own: its meaning is stated by Text.TrimEndSpec |
| Text.Strip | upload_vids.py:111 | `strip()`; no contract of its own: its meaning is stated by Text.StripSpec and Text.StripIdempotent |
| Text.IsSubstring | upload_vids.py:104 | `in` on two strings; no contract of its own: its meaning is stated by Text.IsSubstringSpec |
| Text.TrimStartSpec | upload_vids.py:111 | `lstrip` removes a whitespace prefix and leaves no leading whitespace |
| Text.TrimEndSpec | upload_vids.py:111 | `rstrip` removes a whitespace suffix and leaves no trailing whitespace |
| Text.StripSpec | upload_vids.py:111 | `strip()` is a slice of its input with only whitespace cut from each end, and has no whitespace at either end |
| Text.StripIdempotent | upload_vids.py:111 | stripping twice is stripping once |
| Text.IsSubstringSpec | upload_vids.py:104 | `in` on strings holds exactly when the needle occurs at some position |
| Text.SuffixIsSubstring | tests/test_metadata_extraction.py:55 | a string ending with a suffix contains it (`"#shorts" in desc`) |
| Metadata.Transcript | upload_vids.py:59 | `" ".join(texts)`; no contract of its own: its meaning is stated by Metadata.TranscriptLength, Metadata.TranscriptConcat and Metadata.SplitTranscript |
| Metadata.TranscriptLength | upload_vids.py:59 | the joined transcript has every segment's characters plus one space between neighbours; no segments give `""` |
| Metadata.TranscriptConcat | upload_vids.py:59 | joining two runs of segments is joining each with one space between |
| Metadata.SplitTranscript | upload_vids.py:59 | when no segment holds a space, splitting the transcript on spaces gives the segments back |
| Metadata.ContainsKey | upload_vids.py:104 | `key in data` by JSON type (key, element, substring, or TypeError); no contract of its own: Metadata.MissingKeysDoubleTag, Metadata.ScalarReplyFallback and Metadata.ListOrStringReply state its cases |
| Metadata.Subscript | upload_vids.py:105-106 | `data[key]` (TypeError on lists and strings); no contract of its own: Metadata.ModelMetadata and Metadata.ListOrStringReply state its cases |
| Metadata.StripValue | upload_vids.py:111 | `.strip()` on a JSON value (AttributeError on a non-string); no contract of its own: Metadata.ModelMetadata and Metadata.NonStringFieldFallback state its cases |
| Metadata.PickFields | upload_vids.py:104-109 | the `if 'title' in data and 'description' in data` choice; no contract of its own: Metadata.ModelMetadata and Metadata.MissingKeysPair state its two branches |
| Metadata.Finish | upload_vids.py:111 | the common return; no contract of its own: Metadata.ModelMetadata, Metadata.MissingKeysPair and Metadata.NonStringFieldFallback state its results |
| Metadata.Synthesize | upload_vids.py:96-114 | the `try` block with its handler; no contract of its own: Metadata.ChatFailureFallback, Metadata.ModelMetadata, Metadata.MissingKeysPair, Metadata.NonStringFieldFallback, Metadata.ScalarReplyFallback and Metadata.ListOrStringReply state every reply's outcome |
| Metadata.GenerateMetadata | upload_vids.py:64-117 | `generate_metadata`; no contract of its own: Metadata.OnlyTranscriptionEscapes, Metadata.NoFrameFallback and Metadata.DescriptionEndsWithTag state its outcomes, the ladder lemmas below each branch |
| Metadata.DescriptionEndsWithTag | upload_vids.py:71-114 | every description `generate_metadata` returns ends with `" #shorts"` and contains `"#shorts"` |
| Metadata.OnlyTranscriptionEscapes | upload_vids.py:71-112 | `generate_metadata` raises if and only if a frame was read and the transcription raised |
| Metadata.NoFrameFallback | upload_vids.py:71-72 | an unreadable frame gives ("Daily Short", "Cool video #shorts") whatever else happens |
| Metadata.ChatFailureFallback | upload_vids.py:96-114 | an exception from the model call or `json.loads` gives ("Daily Upload", "Check this out! #shorts") |
| Metadata.ModelMetadata | upload_vids.py:104-111 | string `title` and `description` come back stripped, with the tag appended once; the title has no surrounding whitespace |
| Metadata.MissingKeysPair | upload_vids.py:104-111 | any reply found to lack a key gives ("Daily Short", "Cool video #shorts #shorts") |
| Metadata.MissingKeysDoubleTag | upload_vids.py:107-111 | an object lacking `title` or `description` gives the fallback pair with the tag twice |
| Metadata.NonStringFieldFallback | upload_vids.py:104-114 | both keys present but a non-string value: `.strip()` raises and the handler's pair is returned |
| Metadata.ScalarReplyFallback | upload_vids.py:104-114 | a null, boolean or number reply makes `'title' in data` raise, giving the handler's pair |
| Metadata.ListOrStringReply | upload_vids.py:104-114 | for a list or string reply, `in` tests elements or substrings; both found gives the handler's pair (subscript raises), otherwise the missing-keys pair |
| Schedule.NextScheduleTime | upload_vids.py:26-41 | every slot is valid and exactly noon; no state file gives noon of today; an unreadable state file is an error |
| Schedule.NextSlotAfterPersisted | upload_vids.py:28-39 | after persisting `last`, the next slot is noon of the day after `last` (day number + 1), or the overflow error on 9999-12-31 |
| Schedule.NextSlotIgnoresTimeOfDay | upload_vids.py:31-39 | two persisted date-times on the same date give the same next slot |
| Schedule.MalformedStateIsFatal | upload_vids.py:31 | a state text `fromisoformat` rejects is an error, not a fresh start |
| Schedule.FirstRunExample | tests/test_scheduling.py:24-33 | no state file at 2026-01-24 10:00 gives 2026-01-24 12:00 |
| Schedule.PersistedExample | tests/test_scheduling.py:36-48 | the state `2026-01-24T12:00:00` gives 2026-01-25 12:00 |
| Upload.RequestBodyFor | upload_vids.py:123-134 | title and description passed through, category "28", private, not for kids, `publishAt` the `isoformat() + "Z"` text of the slot, which denotes exactly the slot |
| Upload.RequestBodyExample | tests/test_upload_vids.py:62 | the test's slot is sent as `2026-01-24T12:00:00Z` |
| Upload.UploadVideo | upload_vids.py:119-143 | succeeds exactly when metadata generation returns and the submission succeeds; the call has part "snippet,status", uploads the given path, is private, is scheduled at the slot and carries a tagged description; its body is the request body for the metadata `generate_metadata` returned |
| Publisher.VideoPath | upload_vids.py:157 | `os.path.join(VIDEO_FOLDER, video)`; no contract of its own: Publisher.PublishedSlots states that the j-th upload sends the j-th file's path |
| Publisher.IsVideoFile | upload_vids.py:148 | `f.endswith(('.mp4', '.mov'))`, case-sensitive; no contract of its own: Publisher.VideoFiles states the filter it drives |
| Publisher.VideoFiles | upload_vids.py:148 | a name is kept exactly when it is in the listing and ends with `.mp4` or `.mov` |
| Publisher.VideoFilesConcat | upload_vids.py:148 | the filter keeps listing order: filtering a concatenation concatenates the filtered parts |
| Publisher.VideoFilesDistinct | upload_vids.py:148 | a listing without repeats yields each video once |
| Publisher.UploadVideoHonest | upload_vids.py:119-143 | `upload_video` raises exactly when the upload cannot succeed, and uploads the file it is given |
| Publisher.PublishOne | upload_vids.py:160-176 | one turn of the loop leaves a valid cursor, whether it continues or breaks |
| Publisher.PublishBatch | upload_vids.py:155-176 | the loop leaves a valid cursor |
| Publisher.FirstFailure | upload_vids.py:155-176 | the index k of the first video whose upload raises (or n): every earlier one succeeds and the k-th does not |
| Publisher.SuccessStep | upload_vids.py:160-171 | a successful upload before 9999-12-31 deletes the file, persists the current slot, advances the cursor one day, records the call and continues |
| Publisher.BatchFiles | upload_vids.py:164 | exactly the files of the first k videos are removed from the folder |
| Publisher.BatchSchedule | upload_vids.py:167-171 | the state file holds slot₀ + (k−1) days (unchanged when k = 0) and the cursor is slot₀ + k days |
| Publisher.BatchUploads | upload_vids.py:161 | the uploads made are, in order, those of the first k videos, after all earlier uploads |
| Publisher.BatchCalls | upload_vids.py:155-171 | exactly k uploads are made (none after the failure), earlier ones are kept, and the j-th uploads the j-th video at slot₀ + j days |
| Publisher.PublishedSlots | upload_vids.py:155-171 | with `upload_video`, the j-th upload sends the j-th file with the request body for its generated metadata, scheduled j days after slot₀ at slot₀'s time of day |
| Publisher.FilesAfterBatch | upload_vids.py:155-176 | with distinct names, videos before k are gone, and video k and every later one are as they were |
| Publisher.ResumeNextRun | upload_vids.py:167-171 | after a batch with an upload, the next run's first slot is the cursor this run ended with |
| Publisher.OverflowEndsBatch | upload_vids.py:160-176 | a success on 9999-12-31 deletes the file and persists the slot; the day increment then raises and ends the batch with the cursor unchanged |
| Publisher.Publisher.LoadSchedule | upload_vids.py:153 | the cursor becomes the next slot; a failure leaves it unchanged and is reported |
| Publisher.Publisher.PublishAll | upload_vids.py:155-176 | the loop over the mutable state ends in exactly the state `PublishBatch` specifies |
| Publisher.Publisher.Run | upload_vids.py:145-176 | a schedule error ends the run before any upload, with the folder, state file, cursor and uploads unchanged; otherwise the state is the batch over the filtered listing from the first slot |

## Left out

- Authentication (`get_authenticated_service`) is left out: it only calls the OAuth flow and `build`, and keeps no state.
- OpenCV, moviepy and Whisper, the Ollama call and `json.loads` are foreign libraries. They become inputs: whether a frame was read, the segment texts or an exception, and the parsed reply or an exception.
- The prompt text and the frame image are left out: the model's reply is an input function of the transcript that is given per video (`VideoEnv.chat`), so it already stands for whatever that video's frame and the prompt wording make the model answer.
- JSON numbers are kept only as `real` values, because the ladder never looks at them.
- Temporary files (`temp_audio.mp3`, `temp_view_test.jpg`) and their removal are not modelled, including the audio file left behind when transcription raises.
- `MediaFileUpload` and `request.execute()` are one success-or-failure input per video. The platform's response is not modelled.
- File-system effects: `os.remove` and the state-file write are assumed to succeed. The folder is a set of names, and the state file is the text stored under `last_scheduled_date`, or absent, or unusable (not JSON, or missing the key).
- Only the `YYYY-MM-DDTHH:MM:SS[.ffffff]` form that `isoformat()` writes is read. The rest of the `fromisoformat` grammar (other separators, offsets, short forms) is rejected.
- `datetime.now()` is a parameter.
- `print` output and the CPU/GPU time estimates are left out.
- `profile_reels_download.py` and `batch_download_posts.py` are not part of this model: they are command-line wrappers around instaloader.
- Publisher.PublishOne and Publisher.PublishBatch are specification functions. Their own contracts only keep the cursor valid; what they do is stated by SuccessStep, OverflowEndsBatch, BatchFiles, BatchSchedule, BatchUploads, BatchCalls and FilesAfterBatch.
- Publisher.BatchFiles: requires the k days of the batch to stay within year 9999; Publisher.OverflowEndsBatch covers a batch that reaches 9999-12-31.
- Publisher.BatchSchedule: requires the k days of the batch to stay within year 9999, as above.
- Publisher.BatchUploads: requires the k days of the batch to stay within year 9999, as above.
- Publisher.BatchCalls: requires the k days of the batch to stay within year 9999, as above.
- Publisher.PublishedSlots: requires the k days of the batch to stay within year 9999, as above; a batch that overflows is not described upload by upload.
- Publisher.FilesAfterBatch: requires the k days of the batch to stay within year 9999, as above.
- Publisher.ResumeNextRun: requires the k days of the batch to stay within year 9999, as above.
- Publisher.Uploads and Publisher.UploadsAt (helpers of the lemmas above) have the same requirement.
