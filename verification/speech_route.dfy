/** The text-to-speech route (app/api/speech/route.ts): credential check,
    then the JSON `text` and `voice`, then one speech call whose MP3 bytes are
    returned with their length. */
module SpeechRoute {
  import opened Wrappers
  import opened Text
  import opened Decimal
  import opened Credentials

  const ErrorPrefix := "Failed to generate speech: "
  const Model := "tts-1"
  const DefaultVoice := "alloy"
  const ValidVoices := ["alloy", "echo", "fable", "onyx", "nova", "shimmer"]

  /** The JSON body: `voice` is None when the field is absent. */
  datatype SpeechRequest = SpeechRequest(text: Option<string>, voice: Option<string>)

  /** The speech request the route makes. */
  datatype SpeechCall = SpeechCall(model: string, voice: string, input: string, apiKey: string)

  /** A binary answer and its two headers. */
  datatype Audio = Audio(bytes: seq<Byte>, contentType: string, contentLength: string)

  /** Destructuring with a default: only an absent field takes "alloy". */
  function RequestedVoice(voice: Option<string>): (v: string)
    ensures voice.Some? ==> v == voice.value
    ensures voice.None? ==> v == DefaultVoice
  {
    if voice.Some? then voice.value else DefaultVoice
  }

  /** A voice outside the six supported names falls back to "alloy". */
  function SelectVoice(requested: string): (v: string)
    ensures v in ValidVoices
    ensures requested in ValidVoices <==> v == requested
  {
    if requested in ValidVoices then requested else DefaultVoice
  }

  /** Selecting again changes nothing. */
  lemma SelectVoiceIdempotent(requested: string)
    ensures SelectVoice(SelectVoice(requested)) == SelectVoice(requested)
  {
  }

  /** `POST /api/speech` given the environment key, the `Authorization`
      header, the parsed JSON body and what the speech call would do. */
  function Speak(env: Option<string>, authorization: Option<string>,
                 body: Body<SpeechRequest>, upstream: Upstream<seq<Byte>>)
    : (r: RouteResult<SpeechCall, Audio>)
    ensures KnownStatus(r.response)
    ensures ResolveApiKey(env, authorization).None? <==> r.response == Failure(401, MissingKeyMessage)
    ensures ResolveApiKey(env, authorization).None? ==> r.call.None?
    ensures ResolveApiKey(env, authorization).Some? && body.Parsed? && !IsSet(body.value.text) ==>
              r.response == Failure(400, "No text provided") && r.call.None?
    ensures r.response.Failure? && r.response.status == 500 ==> StartsWith(r.response.error, ErrorPrefix)
    ensures r.call.Some? <==> ResolveApiKey(env, authorization).Some? && body.Parsed? && IsSet(body.value.text)
    ensures r.call.Some? ==>
              && r.call.value.model == Model
              && r.call.value.voice in ValidVoices
              && r.call.value.voice == SelectVoice(RequestedVoice(body.value.voice))
              && r.call.value.input == body.value.text.value
              && r.call.value.apiKey == ResolveApiKey(env, authorization).value
    ensures ResolveApiKey(env, authorization).Some? && body.Malformed? ==>
              r.response == Failure(500, ErrorPrefix + body.message) && r.call.None?
    ensures r.call.Some? && upstream.Threw? ==> r.response == Failure(500, ErrorPrefix + upstream.message)
    ensures r.response.Success? <==> r.call.Some? && upstream.Returned?
    ensures r.response.Success? ==>
              && r.response.value.bytes == upstream.value
              && r.response.value.contentType == "audio/mpeg"
              && r.response.value.contentLength == NatToString(|upstream.value|)
              && ParseDigits(r.response.value.contentLength) == |upstream.value|
  {
    match ResolveApiKey(env, authorization)
    case None => RouteResult(Failure(401, MissingKeyMessage), None)
    case Some(key) =>
      match body
      case Malformed(m) => RouteResult(Failure(500, ErrorPrefix + m), None)
      case Parsed(req) =>
        if !IsSet(req.text) then RouteResult(Failure(400, "No text provided"), None)
        else
          var call := SpeechCall(Model, SelectVoice(RequestedVoice(req.voice)), req.text.value, key);
          match upstream
          case Threw(m) => RouteResult(Failure(500, ErrorPrefix + m), Some(call))
          case Returned(bytes) =>
            ParseNatToString(|bytes|);
            RouteResult(Success(Audio(bytes, "audio/mpeg", NatToString(|bytes|))), Some(call))
  }

  /** An explicitly requested but unsupported voice is replaced by "alloy",
      while a supported one is passed through. */
  lemma VoiceFallback(key: string, text: string, voice: string, up: Upstream<seq<Byte>>)
    requires key != "" && text != ""
    ensures var r := Speak(Some(key), None, Parsed(SpeechRequest(Some(text), Some(voice))), up);
            r.call.Some? && (r.call.value.voice == voice <==> voice in ValidVoices)
            && (voice !in ValidVoices ==> r.call.value.voice == DefaultVoice)
  {
  }

  /** A request without a `voice` field is spoken with "alloy". */
  lemma OmittedVoiceIsAlloy(env: Option<string>, authorization: Option<string>,
                            text: Option<string>, up: Upstream<seq<Byte>>)
    requires ResolveApiKey(env, authorization).Some? && IsSet(text)
    ensures var r := Speak(env, authorization, Parsed(SpeechRequest(text, None)), up);
            r.call.Some? && r.call.value.voice == DefaultVoice
  {
  }
}
