/**
 * `get_transcript`'s join of the speech segments and the decision ladder of
 * `generate_metadata` (upload_vids.py). The foreign calls are inputs: whether
 * OpenCV read a first frame, what Whisper returned (segment texts, or an
 * exception), and what the Ollama chat call plus `json.loads` produced for a
 * given transcript (a parsed JSON value, or an exception).
 */
module Metadata {
  import opened Wrappers
  import opened Text

  /** A value `json.loads` can return. Numbers are kept only as numbers: their value is never looked at. */
  datatype Json =
    | JNull
    | JBool(b: bool)
    | JNumber(n: real)
    | JString(s: string)
    | JArray(items: seq<Json>)
    | JObject(fields: map<string, Json>)

  /**
   * The outcome of asking the model: ChatRaised stands for any exception
   * raised by `ollama.chat`, by `response['message']['content']` or by
   * `json.loads`, all of which the `except Exception` clause catches.
   */
  datatype ChatReply = ChatRaised | ChatParsed(data: Json)

  /**
   * The outcome of `get_transcript`: the texts of Whisper's segments in order,
   * or an exception raised anywhere on the way (opening the clip, a clip
   * without audio, writing the audio file, loading the model, transcribing,
   * or iterating the segments during the join).
   */
  datatype Transcription = TranscriptionRaised | Segments(texts: seq<string>)

  datatype Metadata = Metadata(title: string, description: string)

  /** Which rung of the ladder produced the metadata. */
  datatype MetadataPath = NoFrame | FromModel | MissingKeys | SynthesisFailed

  /**
   * What `generate_metadata` does: return a pair (tagged with the rung that
   * produced it), or let the transcription exception escape.
   */
  datatype MetadataOutcome = Generated(meta: Metadata, path: MetadataPath) | MetadataRaised

  const ShortsTag := " #shorts"

  /** The pair returned when no frame can be read. */
  const NoFrameMetadata := Metadata("Daily Short", "Cool video #shorts")

  /** The pair returned when anything in the model step raises. */
  const SynthesisFailedMetadata := Metadata("Daily Upload", "Check this out! #shorts")

  /** `" ".join(texts)`. */
  function Transcript(texts: seq<string>): string {
    if texts == [] then ""
    else if |texts| == 1 then texts[0]
    else texts[0] + " " + Transcript(texts[1..])
  }

  function TotalLength(texts: seq<string>): nat {
    if texts == [] then 0 else |texts[0]| + TotalLength(texts[1..])
  }

  /**
   * The transcript holds every character of every segment plus one separator
   * between neighbours; no segments give the empty transcript.
   */
  lemma {:induction false} TranscriptLength(texts: seq<string>)
    ensures texts == [] ==> Transcript(texts) == ""
    ensures texts != [] ==> |Transcript(texts)| == TotalLength(texts) + |texts| - 1
  {
    if |texts| > 1 {
      TranscriptLength(texts[1..]);
    }
  }

  /** Joining two non-empty runs of segments is joining each and putting one space between. */
  lemma {:induction false} TranscriptConcat(a: seq<string>, b: seq<string>)
    requires a != [] && b != []
    ensures Transcript(a + b) == Transcript(a) + " " + Transcript(b)
  {
    if |a| == 1 {
      assert (a + b)[1..] == b;
    } else {
      assert (a + b)[1..] == a[1..] + b;
      TranscriptConcat(a[1..], b);
    }
  }

  /** Index of the first space in `s`, or `|s|` when there is none. */
  function IndexOfSpace(s: string): (i: nat)
    ensures i <= |s| && (i < |s| ==> s[i] == ' ')
    ensures forall j :: 0 <= j < i ==> s[j] != ' '
  {
    if s == [] || s[0] == ' ' then 0 else 1 + IndexOfSpace(s[1..])
  }

  lemma {:induction false} IndexOfSpaceAfter(head: string, rest: string)
    requires ' ' !in head
    ensures IndexOfSpace(head + " " + rest) == |head|
  {
    if head != [] {
      assert (head + " " + rest)[1..] == head[1..] + " " + rest;
      IndexOfSpaceAfter(head[1..], rest);
    }
  }

  /** Python's `s.split(' ')`. */
  function SplitOnSpace(s: string): (parts: seq<string>)
    ensures parts != []
    decreases |s|
  {
    var i := IndexOfSpace(s);
    if i == |s| then [s] else [s[..i]] + SplitOnSpace(s[i + 1..])
  }

  /** When no segment contains a space, splitting the transcript on spaces gives the segments back. */
  lemma {:induction false} SplitTranscript(texts: seq<string>)
    requires texts != []
    requires forall k :: 0 <= k < |texts| ==> ' ' !in texts[k]
    ensures SplitOnSpace(Transcript(texts)) == texts
  {
    var s := Transcript(texts);
    if |texts| == 1 {
      assert IndexOfSpace(s) == |s|;
    } else {
      var head := texts[0];
      assert s == head + " " + Transcript(texts[1..]);
      IndexOfSpaceAfter(head, Transcript(texts[1..]));
      assert s[..|head|] == head;
      assert s[|head| + 1..] == Transcript(texts[1..]);
      SplitTranscript(texts[1..]);
    }
  }

  /** Python's `key in data`; None where it raises TypeError (numbers, booleans, null). */
  function ContainsKey(data: Json, key: string): Option<bool> {
    match data
    case JObject(fields) => Some(key in fields)
    case JArray(items) => Some(JString(key) in items)
    case JString(s) => Some(IsSubstring(key, s))
    case _ => None
  }

  /** Python's `data[key]` with a string key; None where it raises (lists and strings need integer indices). */
  function Subscript(data: Json, key: string): Option<Json> {
    match data
    case JObject(fields) => if key in fields then Some(fields[key]) else None
    case _ => None
  }

  /** Python's `value.strip()`; None where it raises AttributeError (the value is not a string). */
  function StripValue(value: Json): Option<string> {
    match value
    case JString(s) => Some(Strip(s))
    case _ => None
  }

  /**
   * `if 'title' in data and 'description' in data`: the model's two values,
   * or the fallback pair when a name is missing, each with the rung taken;
   * None where `in` or a subscript raises.
   */
  function PickFields(data: Json): Option<(Json, Json, MetadataPath)> {
    match ContainsKey(data, "title")
    case None => None
    case Some(hasTitle) =>
      if hasTitle && ContainsKey(data, "description") == Some(true) then
        match (Subscript(data, "title"), Subscript(data, "description"))
        case (Some(title), Some(desc)) => Some((title, desc, FromModel))
        case _ => None
      else
        Some((JString("Daily Short"), JString("Cool video #shorts"), MissingKeys))
  }

  /** `return title.strip(), desc.strip() + " #shorts"`, or the handler's pair where `.strip()` raises. */
  function Finish(title: Json, desc: Json, path: MetadataPath): (Metadata, MetadataPath) {
    match (StripValue(title), StripValue(desc))
    case (Some(t), Some(d)) => (Metadata(t, d + ShortsTag), path)
    case _ => (SynthesisFailedMetadata, SynthesisFailed)
  }

  /** Two strings: both stripped, the tag appended to the description. */
  lemma FinishStrings(title: string, desc: string, path: MetadataPath)
    ensures Finish(JString(title), JString(desc), path) == (Metadata(Strip(title), Strip(desc) + ShortsTag), path)
  {
  }

  /** The `try` block of `generate_metadata`, from the model's reply to the returned pair. */
  function Synthesize(reply: ChatReply): (Metadata, MetadataPath) {
    match reply
    case ChatRaised => (SynthesisFailedMetadata, SynthesisFailed)
    case ChatParsed(data) =>
      match PickFields(data)
      case None => (SynthesisFailedMetadata, SynthesisFailed)
      case Some((title, desc, path)) => Finish(title, desc, path)
  }

  /**
   * `generate_metadata(video_path)`: an unreadable first frame returns at
   * once; otherwise the transcript is taken outside the `try`, so a
   * transcription exception escapes; otherwise the model is asked about the
   * transcript and its reply goes through the ladder.
   */
  function GenerateMetadata(frameRead: bool, transcription: Transcription, chat: string -> ChatReply): MetadataOutcome {
    if !frameRead then Generated(NoFrameMetadata, NoFrame)
    else match transcription
      case TranscriptionRaised => MetadataRaised
      case Segments(texts) =>
        var (meta, path) := Synthesize(chat(Transcript(texts)));
        Generated(meta, path)
  }

  /** Every description `generate_metadata` returns ends with the `#shorts` tag. */
  lemma DescriptionEndsWithTag(frameRead: bool, transcription: Transcription, chat: string -> ChatReply)
    ensures match GenerateMetadata(frameRead, transcription, chat)
      case Generated(meta, _) => EndsWith(meta.description, ShortsTag) && IsSubstring("#shorts", meta.description)
      case MetadataRaised => true
  {
    match GenerateMetadata(frameRead, transcription, chat)
    case Generated(meta, _) =>
      var d := meta.description;
      assert d[|d| - |ShortsTag|..] == ShortsTag;
      assert d[|d| - 7..] == ShortsTag[1..];
      SuffixIsSubstring(d, "#shorts");
    case MetadataRaised =>
  }

  /** Only a transcription exception, after a frame was read, escapes `generate_metadata`. */
  lemma OnlyTranscriptionEscapes(frameRead: bool, transcription: Transcription, chat: string -> ChatReply)
    ensures GenerateMetadata(frameRead, transcription, chat).MetadataRaised?
        <==> frameRead && transcription.TranscriptionRaised?
  {
  }

  /** An unreadable frame gives ("Daily Short", "Cool video #shorts"), whatever the other inputs. */
  lemma NoFrameFallback(transcription: Transcription, chat: string -> ChatReply)
    ensures GenerateMetadata(false, transcription, chat)
         == Generated(Metadata("Daily Short", "Cool video #shorts"), NoFrame)
  {
  }

  /** An exception from the model step gives ("Daily Upload", "Check this out! #shorts"). */
  lemma ChatFailureFallback(texts: seq<string>, chat: string -> ChatReply)
    requires chat(Transcript(texts)) == ChatRaised
    ensures GenerateMetadata(true, Segments(texts), chat)
         == Generated(Metadata("Daily Upload", "Check this out! #shorts"), SynthesisFailed)
  {
  }

  /** An object with a string `title` and a string `description`: both stripped, the tag appended once. */
  lemma ModelMetadata(texts: seq<string>, chat: string -> ChatReply, fields: map<string, Json>, title: string, desc: string)
    requires chat(Transcript(texts)) == ChatParsed(JObject(fields))
    requires "title" in fields && fields["title"] == JString(title)
    requires "description" in fields && fields["description"] == JString(desc)
    ensures var r := GenerateMetadata(true, Segments(texts), chat);
      r == Generated(Metadata(Strip(title), Strip(desc) + " #shorts"), FromModel) &&
      IsTrimmed(r.meta.title)
  {
    var data := JObject(fields);
    assert PickFields(data) == Some((JString(title), JString(desc), FromModel));
    FinishStrings(title, desc, FromModel);
    assert IsTrimmed(Strip(title)) by { StripSpec(title); }
  }

  /** The reply's data when it names neither both keys: the missing-keys pair, whose tag ends up doubled. */
  lemma MissingKeysPair(data: Json)
    requires ContainsKey(data, "title") == Some(false) || ContainsKey(data, "description") == Some(false)
    ensures Synthesize(ChatParsed(data)) == (Metadata("Daily Short", "Cool video #shorts #shorts"), MissingKeys)
  {
    assert PickFields(data) == Some((JString("Daily Short"), JString("Cool video #shorts"), MissingKeys));
    FallbackStripped();
    TagAppended();
  }

  /** The fallback title and description carry no surrounding whitespace. */
  lemma FallbackStripped()
    ensures StripValue(JString("Daily Short")) == Some("Daily Short")
    ensures StripValue(JString("Cool video #shorts")) == Some("Cool video #shorts")
  {
    FallbackTitleStripped();
    FallbackDescriptionStripped();
  }

  lemma FallbackTitleStripped()
    ensures Strip("Daily Short") == "Daily Short"
  {
    TrimmedIsFixed("Daily Short");
  }

  lemma FallbackDescriptionStripped()
    ensures Strip("Cool video #shorts") == "Cool video #shorts"
  {
    TrimmedIsFixed("Cool video #shorts");
  }

  lemma TagAppended()
    ensures "Cool video #shorts" + ShortsTag == "Cool video #shorts #shorts"
  {
  }

  /**
   * An object lacking `title` or `description`: the fallback description
   * already carries the tag and the common return appends it again.
   */
  lemma MissingKeysDoubleTag(texts: seq<string>, chat: string -> ChatReply, fields: map<string, Json>)
    requires chat(Transcript(texts)) == ChatParsed(JObject(fields))
    requires "title" !in fields || "description" !in fields
    ensures GenerateMetadata(true, Segments(texts), chat)
         == Generated(Metadata("Daily Short", "Cool video #shorts #shorts"), MissingKeys)
  {
    MissingKeysPair(JObject(fields));
  }

  /** Both keys present but one of the values is not a string: `.strip()` raises, and the handler's pair is returned. */
  lemma NonStringFieldFallback(texts: seq<string>, chat: string -> ChatReply, fields: map<string, Json>)
    requires chat(Transcript(texts)) == ChatParsed(JObject(fields))
    requires "title" in fields && "description" in fields
    requires !fields["title"].JString? || !fields["description"].JString?
    ensures GenerateMetadata(true, Segments(texts), chat) == Generated(SynthesisFailedMetadata, SynthesisFailed)
  {
    var data := JObject(fields);
    assert ContainsKey(data, "title") == Some(true);
    assert ContainsKey(data, "description") == Some(true);
    assert StripValue(fields["title"]).None? || StripValue(fields["description"]).None?;
  }

  /** A JSON reply that is null, a boolean or a number: `'title' in data` raises TypeError. */
  lemma ScalarReplyFallback(texts: seq<string>, chat: string -> ChatReply)
    requires chat(Transcript(texts)).ChatParsed?
    requires var data := chat(Transcript(texts)).data; data.JNull? || data.JBool? || data.JNumber?
    ensures GenerateMetadata(true, Segments(texts), chat) == Generated(SynthesisFailedMetadata, SynthesisFailed)
  {
    assert ContainsKey(chat(Transcript(texts)).data, "title").None?;
  }

  /**
   * A JSON list or string: `in` tests for an element or a substring. When
   * both names are found, `data['title']` raises TypeError; otherwise the
   * missing-keys branch is taken.
   */
  lemma ListOrStringReply(texts: seq<string>, chat: string -> ChatReply)
    requires chat(Transcript(texts)).ChatParsed?
    requires var data := chat(Transcript(texts)).data; data.JArray? || data.JString?
    ensures var data := chat(Transcript(texts)).data;
      var found := ContainsKey(data, "title") == Some(true) && ContainsKey(data, "description") == Some(true);
      GenerateMetadata(true, Segments(texts), chat)
        == if found then Generated(SynthesisFailedMetadata, SynthesisFailed)
           else Generated(Metadata("Daily Short", "Cool video #shorts #shorts"), MissingKeys)
  {
    var data := chat(Transcript(texts)).data;
    if ContainsKey(data, "title") == Some(true) && ContainsKey(data, "description") == Some(true) {
      assert Subscript(data, "title").None?;
    } else {
      MissingKeysPair(data);
    }
  }
}
