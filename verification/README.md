# Hey Bud — verified model of the note, to-do and credential logic

Hey Bud is a voice assistant for the browser and for Capacitor mobile shells.
The user records a voice note. The app sends it to a transcription route and
stores the transcript as a note. It then sends the transcript to an analysis
route, whose chat model extracts task lines, and adds each line as a to-do.

This project models the sequential logic under that flow, as pure functions
over immutable data:

- **Local stores** (`Todos`, `Notes`, on top of `Storage` and `Collections`).
  Each collection lives in one `localStorage` key. It is modelled as an abstract
  blob (`Absent | Corrupt | Present(items)`) plus a count of change events. Reads
  sort the collection: to-dos put incomplete before completed, then newest first;
  notes are newest first. `addTodo` de-duplicates case-insensitively, but only
  against incomplete to-dos. Toggles and updates of an unknown id write nothing.
  Deletes always write.
- **Server routes** (`Credentials`, `AnalyzeRoute`, `TranscribeRoute`,
  `SpeechRoute`).
  - Credential rule: a non-empty environment key wins. Failing that, an
    `Authorization: Bearer …` header is required, or the route answers 401 with
    the marker text "OpenAI API key is missing".
  - Every route checks the credential before its input and its input before the
    upstream call, so failures come in the fixed order 401, then 400, then 500.
  - The analysis route splits, trims and filters the model's reply.
  - The speech route restricts the voice to a whitelist.
- **Providers and orchestration** (`AiService`, `NotebookProvider`,
  `Transcription`, `Analysis`, `ClientServer`).
  - The server-backed provider wraps every failure behind a fixed prefix.
  - The offline provider returns constants.
  - `transcribeAudio` keeps the transcript as a note and re-throws only credential
    errors verbatim.
  - `analyzeText` folds `addTodo` over the extracted lines and reduces every
    failure to one generic message.
  - `ClientServer` joins the routes to the provider. The provider never sends an
    `Authorization` header, so only the server's environment key can satisfy a
    transcription or analysis route.
- **Small state machines** (`NativeRecorder`, `VoiceRecorder`, `ApiKeyPrompt`,
  `Page`).
  - The native recorder has an `isRecording` guard, maps quality to bit rate and
    sample rate, and copies the decoded recording into bytes.
  - The recording widget has a timer label, a toast for each outcome, and a stop
    pipeline with a `finally` reset.
  - The API-key prompt has a trimmed-submit guard.
  - The page decides whether to show the prompt and handles a submitted key.

Ids, timestamps and every upstream call are inputs.
- Ids and times: a note's id and time are parameters. The k-th to-do that one
  analysis run adds gets `stamps(k)`.
- Timestamps are `int`s, not ISO-8601 strings.
- A network or SDK call is an outcome value. A route receives
  `Upstream = Returned | Threw`. The browser side receives
  `FetchOutcome = Rejected | NotOk(error) | OkBody(value)`.
- Reading a request body gives `Body = Malformed | Parsed`.

Where the design description and the code differ, the model follows the code:
- Change events fire on every delete, even when nothing is removed.
- A toggle or update with an unknown id fires no event.
- The analysis path drops the credential marker instead of propagating it.
- The transcription route rejects only a missing `audio` field. It does not
  reject empty audio.
- The stores read, modify and write with no lock.
- The recording reaches the server provider as an ArrayBuffer, which `FormData`
  does not accept, so server transcription cannot succeed as written (see
  Findings). The rest of the model follows the Blob hand-off the provider's
  signature declares.

## Model

| member | source | states |
|---|---|---|
| Todos.GetTodos | lib/todos.ts:9-29 | The listing is a permutation of the stored to-dos. Every incomplete to-do comes before every completed one, and timestamps do not increase within each group. It is empty without a window, without a stored value, or when the value does not parse. |
| Todos.AddTodo | lib/todos.ts:32-53 | If an incomplete to-do equals the content ignoring case, the first such to-do in listing order is returned and nothing is written. Otherwise the result is a new incomplete to-do with the content verbatim and the supplied id and time, stored in front of the listing with one change event. Without a window nothing is written. |
| Todos.AddTodoCovers | lib/todos.ts:36-52 | After `addTodo(c)` some incomplete to-do matches `c` ignoring case. |
| Todos.AddTodoKeepsOpen | lib/todos.ts:36-52 | `addTodo` never closes or removes an incomplete to-do: any content that had an open match still has one. |
| Todos.AddTodoKeepsStored | lib/todos.ts:38-50 | `addTodo` never loses a stored to-do: the stored multiset only grows. |
| Todos.AddTodoGrowth | lib/todos.ts:38-50 | The stored collection grows by at most one to-do. |
| Todos.AddTodoKeepsUnique | lib/todos.ts:36-50 | If no two incomplete to-dos are equal ignoring case (and none is stored twice), that still holds after `addTodo`. |
| Todos.AddTodoTwice | lib/todos.ts:36-40 | Adding case-insensitively equal content twice returns the same to-do, and the second call writes nothing. |
| Todos.ToggleTodo | lib/todos.ts:56-68 | Only the `completed` flag of the first to-do with the id flips. The id, content and timestamp, every other to-do and the length stay the same, with one event. An unknown id leaves the slot untouched. |
| Todos.ToggleCanReopenDuplicate | lib/todos.ts:60-64 | Some store satisfies the uniqueness that `addTodo` keeps, yet a toggle breaks it: reopening a completed "buy" next to an open "Buy". |
| Todos.FreshAddListing | lib/todos.ts:42-50 | After adding new content under a fresh id, the listing is one longer. The new to-do is the only one carrying that id and the only open match of the content. |
| Todos.ToggleClosesOnlyMatch | lib/todos.ts:58-66 | Completing the only open match of some content leaves no open match, and the completed to-do is still listed. |
| Todos.AddToggleAdd | lib/todos.ts:36-66 | Add, complete, then add the same content again: the second add stores a new to-do, because completed to-dos are exempt from the check. Both to-dos are kept, and the store is two entries larger. |
| Todos.DeleteTodo | lib/todos.ts:71-75 | Every to-do carrying the id is removed. The stored list is a subsequence of the listing with exactly as many entries as the listing has to-dos with another id, so every other to-do survives once per occurrence, in listing order. One event fires whether or not anything was removed. |
| Todos.DeleteTodoIdempotent | lib/todos.ts:71-85 | Deleting twice stores the same collection as deleting once; only the event count grows by two. |
| Notes.GetNotes | lib/notes.ts:8-21 | The listing is a permutation of the stored notes, with timestamps non-increasing. It is empty without a window, without a stored value, or when the value does not parse. |
| Notes.AddNote | lib/notes.ts:24-37 | There is no de-duplication. The new note holds the content verbatim with the supplied id and time, goes in front of the listing, and the multiset of notes grows by exactly that note, with one event. |
| Notes.AddNoteThenList | lib/notes.ts:24-37 | After adding, the listing contains the new note with its content and is one longer. |
| Notes.UpdateNote | lib/notes.ts:40-52 | Only the content of the first note with the id changes. Its id and timestamp and every other note stay the same, with one event. An unknown id leaves the slot untouched. |
| Notes.UpdateNoteThenList | lib/notes.ts:40-52 | After updating a listed id, the listing shows a note with that id and the new content. |
| Notes.DeleteNote | lib/notes.ts:55-69 | Every note with the id is removed. The stored list is a subsequence of the listing with exactly as many entries as the listing has notes with another id, so the rest survive once per occurrence, newest first. It always writes and fires one event. |
| Notes.DeleteNoteIdempotent | lib/notes.ts:55-59 | Deleting twice stores the same collection as once, and no listed note carries the id afterwards. |
| Collections.Sort | lib/todos.ts:17-24 | The result is a permutation of the input in non-decreasing rank in which elements of equal rank keep their input order, as the stable `Array.prototype.sort` of ES2019 does. |
| Collections.SortOfSorted | lib/notes.ts:16 | Sorting an already ordered listing changes nothing, so reading after a write of a sorted listing gives it back. |
| Collections.FindIndex | lib/todos.ts:58 | `findIndex`/`find`: the result is the first position satisfying the predicate, or none when no position does. |
| Collections.Filter | lib/todos.ts:73 | `filter`: every element of the result satisfies the predicate and comes from the input, every satisfying input element is in the result, and the result has one entry per satisfying position of the input. |
| Collections.FilterKeepsOrder | lib/notes.ts:57 | Filtering a sorted listing keeps it sorted. |
| Collections.FilterSubsequence | app/api/analyze/route.ts:52 | A filter result is a subsequence of its input, so kept elements keep their relative order. |
| Collections.FilterIdempotent | lib/todos.ts:73 | Filtering twice with the same predicate equals filtering once. |
| Text.Trim | app/api/analyze/route.ts:51 | `trim()`: the result has no whitespace at either end and is a slice of the input with only whitespace cut away on both sides. |
| Text.TrimIdempotent | app/api/analyze/route.ts:51 | Trimming a trimmed string changes nothing. |
| Text.TrimEmptyIffWhitespace | components/api-key-prompt.tsx:26 | A string trims to "" exactly when it consists only of whitespace. |
| Text.TrimOfSlice | app/api/analyze/route.ts:51 | Any trimmed slice with only whitespace around it is the trim, so `trim` has exactly one possible answer. |
| Text.PaddedTrim | components/api-key-prompt.tsx:27 | Whitespace added around a trimmed string is exactly what `trim` removes. |
| Text.Split | app/api/analyze/route.ts:50 | `split("\n")` gives at least one piece, and no piece contains the separator. |
| Text.JoinSplit | app/api/analyze/route.ts:50 | Joining the pieces of a split with the separator restores the string. |
| Text.SplitJoin | app/api/analyze/route.ts:50 | Splitting a join of separator-free pieces gives the pieces back. |
| Decimal.NatToString | app/api/speech/route.ts:49 | `toString()` of a non-negative integer gives decimal digits with no leading zero, one digit exactly below 10. |
| Decimal.ParseNatToString | app/api/speech/route.ts:49 | The decimal text reads back as the number. |
| Decimal.PadStart | components/voice-recorder.tsx:131 | `padStart(width, fill)` ends with the original string, is preceded only by fill characters, and is as long as the original or the width, whichever is larger. |
| Decimal.ParsePadded | components/voice-recorder.tsx:131 | Zero-padding a number's decimal text keeps it all digits, and it still reads back as the number. |
| Credentials.ResolveApiKey | app/api/analyze/route.ts:7-22 | A non-empty environment key wins whatever the header says. Otherwise a key exists exactly when the `Authorization` header starts with "Bearer ", and it is the header with that prefix removed. |
| Credentials.BareBearerPasses | app/api/analyze/route.ts:14-21 | A bare "Bearer " header passes the check with an empty key. |
| AnalyzeRoute.KeepTasks | app/api/analyze/route.ts:49-52 | Every task is a trimmed line that is non-empty and not exactly "No tasks found.". Every line that trims to such a task is among the tasks. The tasks are a subsequence of the trimmed lines, one per line that trims to a keepable task, so never more than the lines. |
| AnalyzeRoute.ExtractTasks | app/api/analyze/route.ts:49-52 | There are no more tasks than lines in the reply. |
| AnalyzeRoute.EmptyReplyHasNoTasks | app/api/analyze/route.ts:46-52 | A missing or empty reply becomes the sentinel, which yields no tasks. |
| AnalyzeRoute.TwoTasksThenSentinel | app/api/analyze/route.ts:49-52 | Two trimmed task lines followed by a sentinel line give exactly the two tasks. |
| AnalyzeRoute.ExtractExample | app/api/analyze/route.ts:46-52 | "Buy milk\nCall Alice\nNo tasks found." yields ["Buy milk", "Call Alice"]. |
| AnalyzeRoute.SentinelCaseVariantKept | app/api/analyze/route.ts:52 | The sentinel test is exact, so "no tasks found." is kept as a task. |
| AnalyzeRoute.Analyze | app/api/analyze/route.ts:4-61 | A failure is always 400, 401 or 500. The answer is 401 exactly when no key resolves, and then there is no model call. Missing or empty text gives 400 "No text provided" with no call. Every 500 starts with "Failed to analyze text: ". A model call happens exactly when a key resolves and the body parses with non-empty text, and it carries the model, the system prompt, the quoted text and the resolved key. An unreadable body after the key check is a 500 with the parse error after the prefix, and a thrown call is a 500 with the thrown message after the prefix. Success happens exactly when the call returned, and the payload is the extracted tasks. |
| AnalyzeRoute.CredentialCheckedBeforeText | app/api/analyze/route.ts:10-29 | With no usable credential and no text, the status is 401, not 400. |
| TranscribeRoute.Transcribe | app/api/transcribe/route.ts:4-46 | Same status taxonomy and credential rule. A missing `audio` field gives 400 "No audio file provided". A speech-to-text call happens exactly when a key resolves and a file is present. Success happens exactly when the call returned and carries the upstream text. An unreadable form after the key check, or a thrown call, is a 500 with that message after "Failed to transcribe audio: ". |
| TranscribeRoute.UpstreamErrorSurfaces | app/api/transcribe/route.ts:39-45 | A thrown upstream error becomes a 500 whose body, after the prefix, is the error's message. |
| TranscribeRoute.MissingKeyIgnoresRequest | app/api/transcribe/route.ts:7-22 | Without a key, every request gets the same 401 whatever its form or upstream. |
| SpeechRoute.RequestedVoice | app/api/speech/route.ts:25 | An omitted voice defaults to "alloy"; a given one is kept as given. |
| SpeechRoute.SelectVoice | app/api/speech/route.ts:32-33 | The chosen voice is always one of the six supported names, and it equals the requested voice exactly when that voice is supported. |
| SpeechRoute.SelectVoiceIdempotent | app/api/speech/route.ts:33 | Selecting again changes nothing. |
| SpeechRoute.Speak | app/api/speech/route.ts:4-59 | Same status taxonomy and credential rule, with 400 for missing or empty text. A call happens exactly when a key resolves and the text is non-empty. It uses "tts-1", the requested voice (or "alloy" when the field is absent) if supported and "alloy" otherwise, the text and the key. Success happens exactly when the call returned: the upstream bytes as "audio/mpeg", with a `Content-Length` that reads back as the byte count. An unreadable body after the key check, or a thrown call, is a 500 with that message after "Failed to generate speech: ". |
| SpeechRoute.OmittedVoiceIsAlloy | app/api/speech/route.ts:25-38 | A request without a `voice` field is spoken with "alloy". |
| SpeechRoute.VoiceFallback | app/api/speech/route.ts:32-38 | An unsupported requested voice reaches the call as "alloy", and a supported one passes through. |
| AiService.GetAIProvider | lib/ai-service.ts:60-69 | The offline provider is chosen exactly for "notebook"; "openai" and every other name choose the server provider. |
| AiService.ShippedConfigUsesServer | lib/ai-service.ts:60-63 | The shipped provider name "openai" selects the server provider. |
| AiService.HeaderValue | lib/ai-service.ts:17-20 | A header lookup ignores case in the name. It gives None exactly when no header has the name, and otherwise the value of the first header with that name. |
| AiService.NoAuthorizationSent | lib/ai-service.ts:38-44 | Neither the transcription request nor the analysis request carries an `Authorization` header. |
| AiService.FailureMessage | lib/ai-service.ts:22-25 | A not-ok body's non-empty `error` is used as is, an empty or missing one falls back, and a thrown error keeps its own message. |
| AiService.UploadOutcome | lib/ai-service.ts:13-14 | A Blob upload reaches the route and yields its answer. An ArrayBuffer makes the three-argument `append` throw its `TypeError` before any request is sent. |
| AiService.ServerTranscribe | lib/ai-service.ts:10-33 | The result is ok exactly when the response is ok, and then it is the body's `text`. Any failure is "Failed to transcribe audio: " followed by the route's error, "Transcription failed", or the thrown message. |
| AiService.ServerAnalyze | lib/ai-service.ts:35-57 | The result is ok exactly when the response is ok, and then it is the body's `todos`. Any failure is "Failed to analyze text: " followed by the route's error, "Analysis failed", or the thrown message. |
| AiService.MarkerSurvivesWrapping | lib/ai-service.ts:24-31 | An error text containing the credential marker still contains it after either provider operation wraps it. |
| AiService.MissingKeyResponseRecognisable | app/api/transcribe/route.ts:15 | A route's 401 body contains the marker, and so does its wrapped form. |
| AiService.ProviderTranscribe | lib/transcription.ts:6-12 | Transcription through the selected provider: the placeholder for the offline provider, the server result otherwise. |
| AiService.ProviderAnalyze | lib/analysis.ts:6-8 | Extraction through the selected provider: the one placeholder task for the offline provider, the server result otherwise. |
| NotebookProvider.TranscribeAudio | lib/notebook-provider.ts:5-20 | Always the fixed placeholder transcript. |
| NotebookProvider.AnalyzeText | lib/notebook-provider.ts:22-36 | Always the single placeholder task, which is itself a trimmed, keepable task line. |
| NotebookProvider.Deterministic | lib/notebook-provider.ts:15-31 | Any two calls return equal results, whatever their inputs. |
| NotebookProvider.PlaceholderIsExtractable | lib/notebook-provider.ts:31 | The analysis route's parser, given the placeholder task as a reply, yields exactly the offline provider's list. |
| Transcription.Rethrown | lib/transcription.ts:18-28 | An error containing the credential marker is re-thrown unchanged, and any other becomes "Failed to transcribe audio". |
| Transcription.GenericErrorLacksMarker | lib/transcription.ts:27 | The generic message does not contain the marker. |
| Transcription.TranscribeAudio | lib/transcription.ts:4-29 | With the recording handed on as a Blob: on success the transcript is returned and added as exactly one note in front of the listing. On failure the notes are untouched, and the error is the generic message or one containing the marker. |
| Transcription.TranscribeAudioAsWritten | lib/transcription.ts:9-12 | As written, with the server provider, the result is always the generic error and no note is kept, whatever the route would answer. The offline provider behaves as with the Blob hand-off. |
| Transcription.NotebookAlwaysAddsNote | lib/transcription.ts:12-17 | The offline provider always succeeds, so its placeholder is returned and the listing grows by one. |
| Transcription.MissingKeyPropagates | lib/transcription.ts:22-24 | A server 401 reaches the caller as the prefixed route message, still containing the marker, with no note written. |
| Transcription.OtherFailureIsGeneric | lib/transcription.ts:27 | A failure without a message reaches the caller as "Failed to transcribe audio". |
| Transcription.TranscribeTwiceTwoNotes | lib/transcription.ts:15 | Transcribing the same audio twice returns the same text and adds two notes. |
| Analysis.AddEach | lib/analysis.ts:11-13 | Folding `addTodo` over the items changes nothing without a window and adds at most one to-do per item. Every item ends with an open match, and open matches that existed before are kept. |
| Analysis.AddEachKeeps | lib/analysis.ts:11-13 | The fold keeps every to-do already stored, completed or not, and keeps incomplete to-dos unique ignoring case. |
| Analysis.EachItemOneOpenMatch | lib/analysis.ts:11-13 | Starting from a store whose incomplete to-dos are unique ignoring case, every extracted item, wherever it sits in the list, ends with exactly one open match. |
| Analysis.CaseVariantsShareOneTodo | lib/analysis.ts:11-13 | Any two extracted items that differ only in case, anywhere in the list, share an open to-do, and each has exactly one open match, so both end with the same single open to-do. |
| Analysis.AnalyzeText | lib/analysis.ts:4-20 | The run fails exactly when the provider fails. The error is then exactly "Failed to analyze text" and the to-dos are untouched; otherwise the to-dos are the fold over the extracted list. |
| Analysis.FailureHidesMarker | lib/analysis.ts:16-19 | A server 401 during analysis surfaces without the marker, and the to-dos are untouched. |
| Analysis.EmptyListChangesNothing | lib/analysis.ts:11-13 | An empty extraction writes nothing and fires no event. |
| Analysis.CaseVariantsAddOne | lib/analysis.ts:11-13 | Two extracted items equal ignoring case add at most one to-do. |
| Analysis.OnlyOneOpenMatch | lib/todos.ts:36 | When incomplete to-dos are unique ignoring case, content with an open match has exactly one. |
| Analysis.NotebookRunAddsPlaceholder | lib/analysis.ts:6-13 | A run with the offline provider is one `addTodo` of the placeholder task. |
| Analysis.NotebookRunsKeepOnePlaceholder | lib/analysis.ts:11-13 | Starting from unique incomplete to-dos, the first offline run leaves exactly one open placeholder to-do, and a second run changes nothing. |
| NativeRecorder.BitRate | lib/services/native-recorder-service.ts:98 | The bit rate is 128000 for "high", 64000 for "medium", and 32000 for anything else. |
| NativeRecorder.SampleRate | lib/services/native-recorder-service.ts:99 | The sample rate is 44100 for "high", 22050 for "medium", and 16000 for anything else. |
| NativeRecorder.RatesMonotone | lib/services/native-recorder-service.ts:98-99 | Bit rate and sample rate always come from the same tier, so they order qualities the same way. |
| NativeRecorder.MaxDuration | lib/services/native-recorder-service.ts:100 | `maxDuration` is the given value unless it is absent or 0, in which case it is 30000. |
| NativeRecorder.NativeStartRecording | lib/services/native-recorder-service.ts:84-117 | The native start succeeds exactly when the plugin is granted permission and starts, or the Android bridge starts. The plugin receives "audio/wav", the two rates and the duration, and the bridge receives the duration. Denied permission and no bridge give their fixed errors. |
| NativeRecorder.StartRecording | lib/services/native-recorder-service.ts:35-53 | Starting while recording changes nothing. Any failure leaves `isRecording` false. Success sets it only after the native start succeeded. |
| NativeRecorder.StartThenQuery | lib/services/native-recorder-service.ts:79-81 | After a start, `isCurrentlyRecording()` is true exactly when recording was already on, or the service is available and the native start succeeded. |
| NativeRecorder.ByteOf | lib/services/native-recorder-service.ts:133-135 | A character code below 256 becomes that byte. |
| NativeRecorder.ToBytes | lib/services/native-recorder-service.ts:130-135 | The byte array is as long as the decoded string, and byte i is the code of character i. |
| NativeRecorder.ToBytesRoundTrip | lib/services/native-recorder-service.ts:130-136 | For a binary string, decoding the bytes back to characters gives the string again. |
| NativeRecorder.StopRecording | lib/services/native-recorder-service.ts:56-76 | Stopping while not recording fails with "Not recording". Otherwise `isRecording` ends false whatever happens. The result is a WAV blob exactly when the service is available and the bridge returned data, and the blob's bytes match the decoded string. |
| VoiceRecorder.Field | components/voice-recorder.tsx:131 | A zero-padded field is all digits and reads back as its number. It is exactly two characters below 100, and longer otherwise. |
| VoiceRecorder.FormatTime | components/voice-recorder.tsx:128-132 | The label is minutes, a colon, then seconds, all digits apart from the colon. The parts read back as `s/60` and `s%60`, and the seconds are under 60. The label is five characters exactly when `s` < 6000. |
| VoiceRecorder.FormatTimeShort | components/voice-recorder.tsx:128-132 | Below 6000 seconds the label is the two minute digits, ':', and the two second digits. |
| VoiceRecorder.FormatTimeRoundTrip | components/voice-recorder.tsx:128-132 | Below 6000 seconds the label has its colon at index 2. Its fields read back as the minutes and remaining seconds, and together they give `s` again. |
| VoiceRecorder.UnderAMinute | components/voice-recorder.tsx:128-132 | Under a minute the label is "00:" followed by the two digits of the seconds. |
| VoiceRecorder.FormatTimeAtStart | components/voice-recorder.tsx:128-132 | `formatTime(0)` is "00:00". |
| VoiceRecorder.FormatTimeAtHalfMinute | components/voice-recorder.tsx:128-132 | `formatTime(30)` is "00:30". |
| VoiceRecorder.ErrorToast | components/voice-recorder.tsx:97-111 | The toast is "API Key Missing" exactly when the message contains the marker, and "Processing Error" otherwise. |
| VoiceRecorder.Process | components/voice-recorder.tsx:82-112 | Transcription runs first, and analysis runs exactly when it succeeded. A transcription failure shows its toast and leaves the to-dos and UI as they were. A success records the transcript and stores the to-dos that analysis produced. Then "Processing complete" shows when analysis succeeded, and otherwise the toast for analysis's error, which is never "API Key Missing". |
| VoiceRecorder.StopRecording | components/voice-recorder.tsx:58-126 | Every stop ends not listening, not processing, with the timer at 0. An inactive recorder changes nothing and shows no toast. A recorder failure shows "Recording Error". Captured audio goes through `Process`: the stores, the toast, whether analysis ran and the transcript are exactly what `Process` gives. An "API Key Missing" toast only follows a transcription failure carrying the marker, with no analysis. |
| VoiceRecorder.StartRecording | components/voice-recorder.tsx:23-56 | With microphone access the widget starts listening. Without it, the widget is unchanged and "Microphone Error" shows. |
| VoiceRecorder.ButtonsAfterStop | components/voice-recorder.tsx:171-183 | The start and stop buttons are never both shown, and after any stop the start button is shown again. |
| VoiceRecorder.MissingServerKeyShowsApiKeyToast | components/voice-recorder.tsx:97-104 | Once the upload reaches the route: with the shipped provider and a 401 from transcription, the recording ends with "API Key Missing", no analysis, and no store change. |
| VoiceRecorder.AsWrittenUploadShowsProcessingError | components/voice-recorder.tsx:105-110 | As written, with the shipped provider, every transcription ends in "Processing Error" and keeps no note. |
| VoiceRecorder.MissingKeyDuringAnalysisIsGeneric | components/voice-recorder.tsx:105-111 | A 401 met during analysis shows only "Processing Error", and the to-dos are unchanged. |
| ApiKeyPrompt.Render | components/api-key-prompt.tsx:20-22 | Nothing renders exactly when the prompt is not visible. The button is disabled exactly when the typed key is whitespace only. |
| ApiKeyPrompt.HandleSubmit | components/api-key-prompt.tsx:24-29 | One submit calls `onSubmit` at most once, and exactly once when the key has a non-whitespace character. The argument is the typed key with its surrounding whitespace cut and nothing else. |
| ApiKeyPrompt.EnabledIffSubmits | components/api-key-prompt.tsx:75 | The button is enabled exactly when pressing it reaches `onSubmit`. |
| ApiKeyPrompt.ResubmitSubmitsSame | components/api-key-prompt.tsx:26-27 | Submitting the submitted key again submits the same key. |
| ApiKeyPrompt.PaddingIgnored | components/api-key-prompt.tsx:26-27 | Whitespace typed around a key does not change what is submitted. |
| Page.CheckApiKey | app/api/check-api-key/route.ts:3-8 | The server reports a key as available exactly when its environment holds a non-empty one. |
| Page.OnMount | app/page.tsx:23-54 | The server is queried exactly in a browser with no stored key. A stored key hides the prompt. After a query, the prompt is hidden exactly when the server answered `available`, and a failed request shows it. |
| Page.PromptShownIffNoKeyAnywhere | app/page.tsx:25-49 | In a browser, the prompt shows exactly when neither the browser nor the server environment holds a key. |
| Page.UnreachableServerShowsPrompt | app/page.tsx:50-53 | With no stored key, a failed availability request shows the prompt. |
| Page.HandleApiKeySubmit | app/page.tsx:56-84 | A key the server calls valid is stored and hides the prompt, with no alert. Otherwise nothing is stored, the visibility is unchanged, and the alert names an invalid key or a failed request. |
| Page.AcceptedKeySkipsCheckNextVisit | app/page.tsx:26-29 | A key submitted through the prompt and accepted makes the next visit hide the prompt without querying the server. |
| Page.RejectedKeyChangesNothing | app/page.tsx:77-83 | After a rejected or failed validation, the next visit behaves exactly as before. |
| ClientServer.AsFetchOutcome | lib/ai-service.ts:22-28 | A route's success becomes an ok body read through the field the provider uses. An error status becomes not-ok, and its `error` counts as missing exactly when empty. |
| ClientServer.ServedTranscription | lib/ai-service.ts:17-25 | Without an environment key, the transcription route answers the provider's header-less request with the 401 marker body. |
| ClientServer.ServedAnalysis | lib/ai-service.ts:38-49 | Without an environment key, the analysis route answers the provider's request with the 401 marker body. |
| ClientServer.NoServerKeyReachesCaller | lib/transcription.ts:22-24 | Once the upload reaches the route, without a server key, transcription fails with the marker intact and writes no note, whatever key the browser stores. |
| ClientServer.NoServerKeyAnalysisGeneric | lib/analysis.ts:16-19 | Without a server key, analysis fails with only "Failed to analyze text" and leaves the to-dos untouched. |
| ClientServer.UpstreamErrorPrefixedTwice | lib/ai-service.ts:29-31 | Once the upload reaches the route, a thrown transcription error reaches the provider's caller with the prefix twice, once from the route and once from the provider. |
| ClientServer.TranscriptReachesNotes | lib/transcription.ts:12-17 | Once the upload reaches the route, a transcript the route returns reaches the caller unchanged and is listed as a note. |
| ClientServer.AsWrittenLosesTranscript | lib/ai-service.ts:13-14 | For a route that would return a transcript, the Blob hand-off yields it, while the hand-off as written yields only the generic error and keeps no note. |

## Findings

| source | as written | input that shows it | evidently intended | confidence | as-written member | corrected member |
|---|---|---|---|---|---|---|
| lib/transcription.ts:9-12 | `transcribeAudio` converts the recording to an `ArrayBuffer` and hands that to the server provider. The provider (lib/ai-service.ts:13-14) calls `formData.append("audio", audioBlob, "audio.wav")`, and the three-argument form of `append` accepts only a Blob, so it throws a `TypeError` inside the provider's `try` before `fetch` runs. | Any recording with the shipped "openai" provider, even with a valid server key: the caller gets "Failed to transcribe audio", the widget shows "Processing Error", no note is kept, and "API Key Missing" never appears (ClientServer.AsWrittenLosesTranscript, VoiceRecorder.AsWrittenUploadShowsProcessingError). | Hand the recording on as the Blob that `AIProvider.transcribeAudio` declares, so the upload reaches `/api/transcribe`. | medium; not executed (follows from the FormData interface's overloads; a build that type-checks would reject the call) | Transcription.TranscribeAudioAsWritten | Transcription.TranscribeAudio |

## Left out

- Browser I/O: `localStorage`, `JSON.parse`/`JSON.stringify` and `window.dispatchEvent`. A slot holds the parsed blob and counts events. A non-array or malformed value is `Corrupt`.
- Timestamps are `int`s. Parsing ISO-8601 strings is not modelled, nor are invalid dates, whose comparator result is `NaN`.
- Id generation with `Math.random` is not modelled. Ids are supplied, because the code does not make them unique.
- `toLowerCase` lowers ASCII letters only. Unicode case mapping is not modelled.
- Analysis.AddEach: the order of the `addTodo` calls is part of its definition. No contract states it separately. That stored to-dos survive and that open uniqueness is kept are stated by `Analysis.AddEachKeeps`, not by `AddEach` itself.
- Decimal.NatToString: the digits hold for the values the program renders (byte counts). JavaScript's `toString()` switches to exponent form from 1e21, and numbers lose precision above 2^53. The model does not cover either.
- The OpenAI SDK calls and `fetch` are out. Every call is an outcome value. Of `FormData`, only the rule that its three-argument `append` accepts nothing but a Blob is modelled (see Findings). The exact `TypeError` text differs between browsers. The model uses Chromium's, and only its lack of the credential marker matters.
- Credentials.BareBearerPasses: a bare "Bearer " header is reachable only in the string logic. HTTP header parsing strips trailing whitespace, so such a header arrives as "Bearer" and gets a 401.
- An ok response whose body lacks `text` or `todos` is not modelled. The provider would return `undefined`.
- A JSON `text` or `voice` field that is not a string is not modelled.
- The notebook provider's `catch` branches cannot be reached and are not modelled. The one-second `setTimeout` delays are left out too.
- The recorder timers (`setInterval` ticks, the 30-second auto-stop and its stale `isListening`) are not modelled. Nor is the browser `MediaRecorder` beyond whether it yielded audio.
- `checkAvailability` (the Capacitor probe) and the singleton getter are out. Availability is a field of the recorder.
- `atob` is not modelled. The stop bridge yields the already decoded binary string.
- The API-key validation route (`app/api/validate-api-key/route.ts`) is a thin wrapper over an SDK call. Its answer is the `Validation` input of `Page.HandleApiKeySubmit`.
- Interleaving of asynchronous read-modify-write calls is not modelled. Lost updates are not modelled either, since the code has no lock, timeout or retry.
- Page.OnMount: only the final visibility is modelled. The order of React state updates is not.
- The speech services, the native speech plugin, settings sliders, agent toggles, the Capacitor wrapper and all JSX markup are not part of this model.
