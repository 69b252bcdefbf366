/** How a route's answer reaches the browser-side provider (lib/ai-service.ts
    calling app/api/transcribe/route.ts and app/api/analyze/route.ts): an
    error status becomes a not-ok response whose JSON `error` field the
    provider reads, a success becomes the ok body. */
module ClientServer {
  import opened Wrappers
  import opened Text
  import opened Credentials
  import opened AiService
  import TranscribeRoute
  import AnalyzeRoute
  import Transcription
  import Analysis
  import opened Storage
  import opened Notes
  import opened Todos

  /** The fetch outcome the provider sees for a route's response, with `f`
      picking the field an ok body is read through. An empty `error` field is
      falsy and reads as missing. */
  function AsFetchOutcome<T, U>(response: Response<T>, f: T -> U): (o: FetchOutcome<U>)
    ensures o.OkBody? <==> response.Success?
    ensures o.OkBody? ==> o.value == f(response.value)
    ensures o.NotOk? ==> (IsSet(o.error) <==> response.error != "")
    ensures o.NotOk? && IsSet(o.error) ==> o.error.value == response.error
  {
    match response
    case Success(v) => OkBody(f(v))
    case Failure(_, e) => NotOk(if e == "" then None else Some(e))
  }

  function TranscriptText(t: TranscribeRoute.Transcript): string {
    t.text
  }

  /** The transcription route as the server provider calls it: with no
      `Authorization` header. */
  function ServedTranscription(env: Option<string>, form: Body<Option<TranscribeRoute.AudioFile>>,
                               upstream: Upstream<string>): (o: FetchOutcome<string>)
    ensures !IsSet(env) ==> o == NotOk(Some(MissingKeyMessage))
  {
    NoAuthorizationSent();
    var route := TranscribeRoute.Transcribe(env, HeaderValue(TranscribeRequest.headers, "Authorization"),
                                            form, upstream);
    AsFetchOutcome(route.response, TranscriptText)
  }

  /** The analysis route as the server provider calls it. */
  function ServedAnalysis(env: Option<string>, body: Body<Option<string>>,
                          upstream: Upstream<Option<string>>): (o: FetchOutcome<seq<string>>)
    ensures !IsSet(env) ==> o == NotOk(Some(MissingKeyMessage))
  {
    NoAuthorizationSent();
    var route := AnalyzeRoute.Analyze(env, HeaderValue(AnalyzeRequest.headers, "Authorization"), body, upstream);
    AsFetchOutcome(route.response, (tasks: seq<string>) => tasks)
  }

  /** Once the upload reaches the route (the recording handed on as a Blob):
      without a server key, transcription fails with the credential marker
      intact and no note is written, because the browser never sends the key
      it stores, so only the server's environment can supply one. */
  lemma NoServerKeyReachesCaller(env: Option<string>, form: Body<Option<TranscribeRoute.AudioFile>>,
                                 upstream: Upstream<string>, audio: seq<Byte>,
                                 notes: Slot<Note>, id: string, now: int)
    requires !IsSet(env)
    ensures var t := Transcription.TranscribeAudio(ServerApi, audio, ServedTranscription(env, form, upstream),
                                                   notes, id, now);
            t.result.Err? && Contains(t.result.error, CredentialMarker) && t.notes == notes
  {
    Transcription.MissingKeyPropagates(audio, notes, id, now);
  }

  /** Without a server key, analysis fails with only the generic message and
      the todos are untouched. */
  lemma NoServerKeyAnalysisGeneric(env: Option<string>, body: Body<Option<string>>,
                                   upstream: Upstream<Option<string>>, text: string,
                                   todos: Slot<Todo>, stamps: nat -> Analysis.Stamp)
    requires !IsSet(env)
    ensures var a := Analysis.AnalyzeText(ServerApi, text, ServedAnalysis(env, body, upstream), todos, stamps);
            a.error == Some(Analysis.GenericError) && !Contains(a.error.value, CredentialMarker) && a.todos == todos
  {
    Analysis.FailureHidesMarker(text, todos, stamps);
  }

  /** Once the upload reaches the route, a thrown transcription error is
      prefixed twice on its way to the caller: once by the route and once by
      the provider. */
  lemma UpstreamErrorPrefixedTwice(key: string, file: TranscribeRoute.AudioFile, m: string)
    requires key != ""
    ensures ServerTranscribe(ServedTranscription(Some(key), Parsed(Some(file)), Threw(m)))
            == Err(TranscribePrefix + TranscribeRoute.ErrorPrefix + m)
  {
    NoAuthorizationSent();
    TranscribeRoute.UpstreamErrorSurfaces(key, file, m);
    var e := TranscribeRoute.ErrorPrefix + m;
    assert e != "";
    assert ServedTranscription(Some(key), Parsed(Some(file)), Threw(m)) == NotOk(Some(e));
    assert TranscribePrefix + e == TranscribePrefix + TranscribeRoute.ErrorPrefix + m;
  }

  /** Once the upload reaches the route, a successful answer reaches the
      caller unchanged and is kept as a note. */
  lemma TranscriptReachesNotes(key: string, file: TranscribeRoute.AudioFile, text: string, audio: seq<Byte>,
                               notes: Slot<Note>, id: string, now: int)
    requires key != "" && notes.hasWindow
    ensures var t := Transcription.TranscribeAudio(ServerApi, audio,
                                                   ServedTranscription(Some(key), Parsed(Some(file)), Returned(text)),
                                                   notes, id, now);
            t.result == Ok(text) && Note(id, text, now) in GetNotes(t.notes)
  {
    var t := Transcription.TranscribeAudio(ServerApi, audio,
                                           ServedTranscription(Some(key), Parsed(Some(file)), Returned(text)),
                                           notes, id, now);
    AddNoteThenList(notes, text, id, now);
  }

  /** As the source hands the recording on, the same successful route answer
      never arrives: the caller sees only the generic error and no note is
      kept, where the Blob hand-off yields the transcript. */
  lemma AsWrittenLosesTranscript(key: string, file: TranscribeRoute.AudioFile, text: string, audio: seq<Byte>,
                                 notes: Slot<Note>, id: string, now: int)
    requires key != ""
    ensures var served := ServedTranscription(Some(key), Parsed(Some(file)), Returned(text));
            && Transcription.TranscribeAudio(ServerApi, audio, served, notes, id, now).result == Ok(text)
            && Transcription.TranscribeAudioAsWritten(ServerApi, audio, served, notes, id, now).result
               == Err(Transcription.GenericError)
            && Transcription.TranscribeAudioAsWritten(ServerApi, audio, served, notes, id, now).notes == notes
  {
  }
}
