/** The speech-to-text service: `/health`, and `/transcribe`, which checks
    the upload is audio, writes it to a temporary file, runs the model on
    that file, joins the recognised segments and removes the file again. */
module Whisper {
  import opened Wrappers
  import opened Strings

  const ModelName: string := "base.en"

  /** The reply of `/health`. */
  datatype Health = Health(status: string, model: string)

  /** `/health` reports the service healthy and names the model it loaded,
      whatever the state of the service. */
  function HealthCheck(): (r: Health)
    ensures r.status == "healthy" && r.model == ModelName
  {
    Health("healthy", ModelName)
  }

  // ---------------------------------------------------------------------
  // Python's str.strip()
  // ---------------------------------------------------------------------

  /** The characters for which Python's `str.isspace()` holds. */
  predicate PyIsSpace(c: char) {
    ('\t' <= c <= '\r') || ('\U{001C}' <= c <= ' ') || c == '\U{0085}' || c == '\U{00A0}' ||
    c == '\U{1680}' || ('\U{2000}' <= c <= '\U{200A}') || c == '\U{2028}' || c == '\U{2029}' ||
    c == '\U{202F}' || c == '\U{205F}' || c == '\U{3000}'
  }

  function PyStripStart(s: string): (r: string)
    ensures |r| <= |s| && r == s[|s| - |r|..]
    ensures r == [] || !PyIsSpace(r[0])
    ensures forall i :: 0 <= i < |s| - |r| ==> PyIsSpace(s[i])
  {
    if s != [] && PyIsSpace(s[0]) then PyStripStart(s[1..]) else s
  }

  function PyStripEnd(s: string): (r: string)
    ensures |r| <= |s| && r == s[..|r|]
    ensures r == [] || !PyIsSpace(r[|r| - 1])
    ensures forall i :: |r| <= i < |s| ==> PyIsSpace(s[i])
  {
    if s != [] && PyIsSpace(s[|s| - 1]) then PyStripEnd(s[..|s| - 1]) else s
  }

  /** `s.strip()`: white space removed at both ends. */
  function PyStrip(s: string): (r: string)
    ensures r == [] || (!PyIsSpace(r[0]) && !PyIsSpace(r[|r| - 1]))
    ensures |r| <= |s|
    ensures (s == [] || (!PyIsSpace(s[0]) && !PyIsSpace(s[|s| - 1]))) ==> r == s
  {
    PyStripEnd(PyStripStart(s))
  }

  /** Stripping twice is stripping once. */
  lemma StripIdempotent(s: string)
    ensures PyStrip(PyStrip(s)) == PyStrip(s)
  {
  }

  // ---------------------------------------------------------------------
  // The transcript
  // ---------------------------------------------------------------------

  /** The transcript text: the segment texts joined by single spaces, then
      stripped. */
  function Text(segments: seq<string>): (text: string)
    ensures segments == [] ==> text == ""
    ensures text == [] || (!PyIsSpace(text[0]) && !PyIsSpace(text[|text| - 1]))
  {
    PyStrip(Join(segments, " "))
  }

  predicate Word(w: string) {
    w != [] && forall i :: 0 <= i < |w| ==> !PyIsSpace(w[i])
  }

  /** A join starts with its first part and ends with its last. */
  lemma {:induction false} JoinEnds(parts: seq<string>, sep: string)
    requires |parts| >= 1 && forall i :: 0 <= i < |parts| ==> parts[i] != []
    ensures var s := Join(parts, sep);
      |s| >= 1 && s[0] == parts[0][0] && s[|s| - 1] == parts[|parts| - 1][|parts[|parts| - 1]| - 1]
  {
    if |parts| > 1 {
      var rest := parts[1..];
      assert rest[|rest| - 1] == parts[|parts| - 1];
      JoinEnds(rest, sep);
      assert Join(parts, sep) == parts[0] + sep + Join(rest, sep);
    }
  }

  /** Segments that are single words come back from the transcript by
      splitting it at the spaces. */
  lemma WordsRecovered(segments: seq<string>)
    requires |segments| >= 1 && forall i :: 0 <= i < |segments| ==> Word(segments[i])
    ensures Split(Text(segments), ' ') == segments
  {
    JoinEnds(segments, " ");
    var last := segments[|segments| - 1];
    assert Word(last) && Word(segments[0]);
    assert !PyIsSpace(last[|last| - 1]) && !PyIsSpace(segments[0][0]);
    assert Text(segments) == Join(segments, " ");
    forall i | 0 <= i < |segments| ensures ' ' !in segments[i] {
      assert Word(segments[i]);
    }
    SplitJoin(segments, ' ');
  }

  /** A space in front of the text is stripped away. */
  lemma StripLeadingSpace(y: string)
    ensures PyStrip(" " + y) == PyStrip(y)
  {
    assert (" " + y)[1..] == y;
  }

  /** The model emits each segment behind a space: the space in front of the
      first segment does not reach the transcript. */
  lemma LeadingSpaceDropped(first: string, rest: seq<string>)
    ensures Text([" " + first] + rest) == Text([first] + rest)
  {
    var a := [" " + first] + rest;
    var b := [first] + rest;
    assert a[1..] == rest && b[1..] == rest;
    assert Join(a, " ") == " " + Join(b, " ");
    StripLeadingSpace(Join(b, " "));
  }

  // ---------------------------------------------------------------------
  // /transcribe
  // ---------------------------------------------------------------------

  /** What the model returned for the file: the segment texts and the
      detected language and duration, or an exception. */
  datatype Inference = Transcribed(segments: seq<string>, language: string, duration: real)
                     | Raised(error: string)

  /** The reply: the transcript, an HTTP error, or an exception the
      framework turns into a server error. */
  datatype Reply = Transcription(text: string, language: string, duration: real)
                 | HttpException(status: nat, detail: string)
                 | ServerError(error: string)

  /** The uploaded part; `contentType` is missing when the client sent
      none. */
  datatype Upload = Upload(contentType: Option<string>, content: seq<Byte>)

  predicate IsAudio(contentType: string) {
    "audio/" <= contentType
  }

  /** The reply once the model has run. */
  function ReplyOf(inference: Inference): (r: Reply)
    ensures inference.Transcribed? ==>
      r == Transcription(Text(inference.segments), inference.language, inference.duration)
    ensures inference.Raised? ==> r == ServerError(inference.error)
  {
    match inference
    case Transcribed(segments, language, duration) => Transcription(Text(segments), language, duration)
    case Raised(error) => ServerError(error)
  }

  /** The service's file system and the files its model has read. */
  class Service {
    var files: map<string, seq<Byte>>
    var modelInputs: seq<seq<Byte>>

    constructor (files: map<string, seq<Byte>>)
      ensures this.files == files && modelInputs == []
    {
      this.files := files;
      modelInputs := [];
    }

    /** `/transcribe`. `tmpPath` is the fresh name the temporary file gets
        and `inference` what the model makes of it. A missing or non-audio
        content type is refused before anything is written; otherwise the
        model reads the uploaded bytes from the file, and the file is gone
        again afterwards whether the model succeeded or raised. */
    method Transcribe(upload: Upload, tmpPath: string, inference: Inference) returns (reply: Reply)
      requires tmpPath !in files
      modifies this
      ensures files == old(files)
      ensures upload.contentType.None? ==>
        reply.ServerError? && modelInputs == old(modelInputs)
      ensures upload.contentType.Some? && !IsAudio(upload.contentType.value) ==>
        reply == HttpException(400, "File must be audio") && modelInputs == old(modelInputs)
      ensures upload.contentType.Some? && IsAudio(upload.contentType.value) ==>
        reply == ReplyOf(inference) && modelInputs == old(modelInputs) + [upload.content]
    {
      if upload.contentType.None? {
        return ServerError("content_type is None");
      }
      if !IsAudio(upload.contentType.value) {
        return HttpException(400, "File must be audio");
      }
      files := files[tmpPath := upload.content];
      modelInputs := modelInputs + [files[tmpPath]];
      reply := ReplyOf(inference);
      files := files - {tmpPath};
      assert files == old(files);
    }
  }
}
