/** The transcription route (app/api/transcribe/route.ts): credential check,
    then the multipart `audio` field, then one speech-to-text call. */
module TranscribeRoute {
  import opened Wrappers
  import opened Text
  import opened Credentials

  const ErrorPrefix := "Failed to transcribe audio: "
  const Model := "whisper-1"

  /** The uploaded recording, as the bytes the form carried. */
  datatype AudioFile = AudioFile(bytes: seq<Byte>)

  /** The transcription request the route makes. */
  datatype TranscriptionCall = TranscriptionCall(model: string, file: AudioFile, apiKey: string)

  /** The JSON body of a successful answer: `{ text }`. */
  datatype Transcript = Transcript(text: string)

  /** `POST /api/transcribe` given the environment key, the `Authorization`
      header, the parsed form's `audio` entry and what the transcription call
      would do. */
  function Transcribe(env: Option<string>, authorization: Option<string>,
                      form: Body<Option<AudioFile>>, upstream: Upstream<string>)
    : (r: RouteResult<TranscriptionCall, Transcript>)
    ensures KnownStatus(r.response)
    ensures ResolveApiKey(env, authorization).None? <==> r.response == Failure(401, MissingKeyMessage)
    ensures ResolveApiKey(env, authorization).None? ==> r.call.None?
    ensures ResolveApiKey(env, authorization).Some? && form == Parsed(None) ==>
              r.response == Failure(400, "No audio file provided") && r.call.None?
    ensures r.response.Failure? && r.response.status == 500 ==>
              StartsWith(r.response.error, ErrorPrefix)
              && (form.Malformed? || upstream.Threw?)
    ensures r.call.Some? <==> ResolveApiKey(env, authorization).Some? && form.Parsed? && form.value.Some?
    ensures r.call.Some? ==>
              r.call.value == TranscriptionCall(Model, form.value.value, ResolveApiKey(env, authorization).value)
    ensures ResolveApiKey(env, authorization).Some? && form.Malformed? ==>
              r.response == Failure(500, ErrorPrefix + form.message) && r.call.None?
    ensures r.call.Some? && upstream.Threw? ==> r.response == Failure(500, ErrorPrefix + upstream.message)
    ensures r.response.Success? <==> r.call.Some? && upstream.Returned?
    ensures r.response.Success? ==> r.response.value.text == upstream.value
  {
    match ResolveApiKey(env, authorization)
    case None => RouteResult(Failure(401, MissingKeyMessage), None)
    case Some(key) =>
      match form
      case Malformed(m) => RouteResult(Failure(500, ErrorPrefix + m), None)
      case Parsed(audio) =>
        if audio.None? then RouteResult(Failure(400, "No audio file provided"), None)
        else
          var call := TranscriptionCall(Model, audio.value, key);
          match upstream
          case Threw(m) => RouteResult(Failure(500, ErrorPrefix + m), Some(call))
          case Returned(text) => RouteResult(Success(Transcript(text)), Some(call))
  }

  /** A thrown upstream error reaches the caller inside the 500 body, after
      the fixed prefix. */
  lemma UpstreamErrorSurfaces(key: string, file: AudioFile, m: string)
    requires key != ""
    ensures var r := Transcribe(Some(key), None, Parsed(Some(file)), Threw(m));
            r.response == Failure(500, ErrorPrefix + m)
            && r.response.error[|ErrorPrefix|..] == m
            && r.call == Some(TranscriptionCall(Model, file, key))
  {
  }

  /** Whatever the form and the upstream do, a missing credential yields the
      same 401 without any upstream call. */
  lemma MissingKeyIgnoresRequest(form1: Body<Option<AudioFile>>, form2: Body<Option<AudioFile>>,
                                 up1: Upstream<string>, up2: Upstream<string>)
    ensures Transcribe(None, None, form1, up1) == Transcribe(None, None, form2, up2)
    ensures Transcribe(None, None, form1, up1).response.status == 401
  {
  }
}
