/** Provider selection and the server-backed provider (lib/ai-service.ts):
    the client side of the transcribe and analyze routes, which rewraps every
    failure behind a fixed prefix. */
module AiService {
  import opened Wrappers
  import opened Text
  import opened Credentials
  import NotebookProvider

  const ShippedProvider := "openai"
  const TranscribePrefix := "Failed to transcribe audio: "
  const AnalyzePrefix := "Failed to analyze text: "
  const TranscribeFallback := "Transcription failed"
  const AnalyzeFallback := "Analysis failed"

  datatype ProviderKind = ServerApi | Notebook

  /** `getAIProvider()` for the configured provider name: only "notebook"
      selects the offline stub; "openai" and every other name, "local"
      included, select the server-backed provider. */
  function GetAIProvider(config: string): (p: ProviderKind)
    ensures p == Notebook <==> config == "notebook"
  {
    match config
    case "openai" => ServerApi
    case "notebook" => Notebook
    case _ => ServerApi
  }

  /** The configuration as shipped selects the server-backed provider. */
  lemma ShippedConfigUsesServer()
    ensures GetAIProvider(ShippedProvider) == ServerApi
  {
  }

  // ---------------------------------------------------------------------------
  // Requests
  // ---------------------------------------------------------------------------

  /** A request to one of the application's own routes. */
  datatype Request = Request(path: string, headers: seq<(string, string)>)

  /** The value of the first header named `name`, compared ignoring case as
      HTTP header names are. */
  function HeaderValue(headers: seq<(string, string)>, name: string): (v: Option<string>)
    ensures v.None? <==> forall i | 0 <= i < |headers| :: !SameIgnoringCase(headers[i].0, name)
    ensures v.Some? ==> exists i | 0 <= i < |headers| :: FirstHeaderAt(headers, name, i) && headers[i].1 == v.value
    decreases |headers|
  {
    if |headers| == 0 then None
    else if SameIgnoringCase(headers[0].0, name) then
      assert FirstHeaderAt(headers, name, 0);
      Some(headers[0].1)
    else
      var v := HeaderValue(headers[1..], name);
      assert forall i | 1 <= i < |headers| :: headers[i] == headers[1..][i - 1];
      assert v.Some? ==> exists i | 1 <= i < |headers| :: FirstHeaderAt(headers, name, i) && headers[i].1 == v.value by {
        if v.Some? {
          var k :| 0 <= k < |headers| - 1 && FirstHeaderAt(headers[1..], name, k) && headers[1..][k].1 == v.value;
          assert FirstHeaderAt(headers, name, k + 1);
        }
      }
      v
  }

  /** `headers[i]` is the first header named `name`, ignoring case. */
  predicate FirstHeaderAt(headers: seq<(string, string)>, name: string, i: int) {
    0 <= i < |headers| && SameIgnoringCase(headers[i].0, name)
    && forall j | 0 <= j < i :: !SameIgnoringCase(headers[j].0, name)
  }

  /** The transcription upload: a multipart body and no explicit headers. */
  const TranscribeRequest := Request("/api/transcribe", [])

  /** The analysis request: only a JSON content type. */
  const AnalyzeRequest := Request("/api/analyze", [("Content-Type", "application/json")])

  /** Neither request carries credentials, so the routes can only use the
      server's environment key. */
  lemma NoAuthorizationSent()
    ensures HeaderValue(TranscribeRequest.headers, "Authorization").None?
    ensures HeaderValue(AnalyzeRequest.headers, "Authorization").None?
  {
    assert Lower("Content-Type")[0] != Lower("Authorization")[0];
  }

  /** What a request to a route comes to: the fetch or a body parse threw, the
      response was not ok and its JSON `error` field held this value (None
      when absent or empty), or the response was ok with this payload. */
  datatype FetchOutcome<T> = Rejected(message: string) | NotOk(error: Option<string>) | OkBody(value: T)

  /** The message a failed request surfaces before the prefix is added. */
  function FailureMessage<T>(outcome: FetchOutcome<T>, fallback: string): (m: string)
    requires !outcome.OkBody?
    ensures outcome.NotOk? && IsSet(outcome.error) ==> m == outcome.error.value
    ensures outcome.NotOk? && !IsSet(outcome.error) ==> m == fallback
    ensures outcome.Rejected? ==> m == outcome.message
  {
    match outcome
    case Rejected(msg) => msg
    case NotOk(e) => if IsSet(e) then e.value else fallback
  }

  /** The form the recording is handed to the server provider in: the `Blob`
      its signature declares, or the `ArrayBuffer` of its bytes. */
  datatype Upload = BlobUpload | BufferUpload

  /** The `TypeError` message `append` throws for a value that is not a Blob,
      in Chromium's wording; other engines word it differently, and none of
      them mentions the credential. */
  const AppendTypeError := "Failed to execute 'append' on 'FormData': " + "parameter 2 is not of type 'Blob'."

  /** What the transcription request comes to for an upload, given what the
      route would answer. The three-argument `append` of the FormData
      interface (XMLHttpRequest Standard) takes only a Blob, so any other value
      throws inside the provider's `try` before `fetch` runs. */
  function UploadOutcome(upload: Upload, served: FetchOutcome<string>): (o: FetchOutcome<string>)
    ensures upload == BlobUpload ==> o == served
    ensures upload == BufferUpload ==> o == Rejected(AppendTypeError)
  {
    match upload
    case BlobUpload => served
    case BufferUpload => Rejected(AppendTypeError)
  }

  /** `ServerAPIProvider.transcribeAudio`: the `text` of an ok answer, or an
      error that is the prefix followed by the route's error, the fallback, or
      whatever was thrown. */
  function ServerTranscribe(outcome: FetchOutcome<string>): (r: Result<string, string>)
    ensures r.Ok? <==> outcome.OkBody?
    ensures r.Ok? ==> r.value == outcome.value
    ensures r.Err? ==> StartsWith(r.error, TranscribePrefix)
    ensures r.Err? ==> r.error[|TranscribePrefix|..] == FailureMessage(outcome, TranscribeFallback)
  {
    match outcome
    case OkBody(text) => Ok(text)
    case _ => Err(TranscribePrefix + FailureMessage(outcome, TranscribeFallback))
  }

  /** `ServerAPIProvider.analyzeText`: the `todos` of an ok answer, or the
      analysis prefix followed by the underlying message. */
  function ServerAnalyze(outcome: FetchOutcome<seq<string>>): (r: Result<seq<string>, string>)
    ensures r.Ok? <==> outcome.OkBody?
    ensures r.Ok? ==> r.value == outcome.value
    ensures r.Err? ==> StartsWith(r.error, AnalyzePrefix)
    ensures r.Err? ==> r.error[|AnalyzePrefix|..] == FailureMessage(outcome, AnalyzeFallback)
  {
    match outcome
    case OkBody(tasks) => Ok(tasks)
    case _ => Err(AnalyzePrefix + FailureMessage(outcome, AnalyzeFallback))
  }

  /** Whatever error text carries the credential marker still carries it once
      wrapped, so the caller can recognise it. */
  lemma MarkerSurvivesWrapping(error: string)
    requires Contains(error, CredentialMarker)
    ensures Contains(ServerTranscribe(NotOk(Some(error))).error, CredentialMarker)
    ensures Contains(ServerAnalyze(NotOk(Some(error))).error, CredentialMarker)
  {
    ContainsWithin(TranscribePrefix, error, "", CredentialMarker);
    assert TranscribePrefix + error + "" == TranscribePrefix + error;
    ContainsWithin(AnalyzePrefix, error, "", CredentialMarker);
    assert AnalyzePrefix + error + "" == AnalyzePrefix + error;
  }

  /** A route's 401 body carries the marker, and so does its wrapping. */
  lemma MissingKeyResponseRecognisable()
    ensures Contains(MissingKeyMessage, CredentialMarker)
    ensures Contains(ServerTranscribe(NotOk(Some(MissingKeyMessage))).error, CredentialMarker)
  {
    ContainsSelf(CredentialMarker);
    ContainsWithin("", CredentialMarker, ". Please set your API key.", CredentialMarker);
    assert "" + CredentialMarker + ". Please set your API key." == MissingKeyMessage;
    MarkerSurvivesWrapping(MissingKeyMessage);
  }

  // ---------------------------------------------------------------------------
  // Dispatch through the selected provider
  // ---------------------------------------------------------------------------

  /** Transcription through the selected provider; the server's outcome is
      ignored by the offline stub. */
  function ProviderTranscribe(kind: ProviderKind, audio: seq<Byte>, outcome: FetchOutcome<string>)
    : (r: Result<string, string>)
    ensures kind == Notebook ==> r == Ok(NotebookProvider.PlaceholderTranscript)
    ensures kind == ServerApi ==> r == ServerTranscribe(outcome)
  {
    match kind
    case ServerApi => ServerTranscribe(outcome)
    case Notebook => Ok(NotebookProvider.TranscribeAudio(audio))
  }

  /** Task extraction through the selected provider. */
  function ProviderAnalyze(kind: ProviderKind, text: string, outcome: FetchOutcome<seq<string>>)
    : (r: Result<seq<string>, string>)
    ensures kind == Notebook ==> r == Ok([NotebookProvider.PlaceholderTask])
    ensures kind == ServerApi ==> r == ServerAnalyze(outcome)
  {
    match kind
    case ServerApi => ServerAnalyze(outcome)
    case Notebook => Ok(NotebookProvider.AnalyzeText(text))
  }
}
