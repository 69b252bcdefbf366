/** `transcribeAudio` (lib/transcription.ts): transcribe through the selected
    provider, keep the transcript as a note, and reduce every failure to a
    generic message unless it is about the missing credential. */
module Transcription {
  import opened Wrappers
  import opened Text
  import opened Storage
  import opened Credentials
  import opened Notes
  import opened AiService

  const GenericError := "Failed to transcribe audio"

  datatype Transcribed = Transcribed(result: Result<string, string>, notes: Slot<Note>)

  /** The error the caller sees for a provider failure: credential errors
      unchanged, everything else replaced by the generic message. */
  function Rethrown(error: string): (e: string)
    ensures Contains(error, CredentialMarker) ==> e == error
    ensures !Contains(error, CredentialMarker) ==> e == GenericError
  {
    if Contains(error, CredentialMarker) then error else GenericError
  }

  /** The generic message does not itself look like a credential error. */
  lemma GenericErrorLacksMarker()
    ensures !Contains(GenericError, CredentialMarker)
  {
    NotContainsByFirstChar(GenericError, CredentialMarker);
  }

  /** `transcribeAudio(audio)` with the provider kind, the server's outcome and
      the new note's id and time supplied, handing the recording on as the
      Blob the provider's signature declares (the corrected hand-off; the
      source converts it first, see `TranscribeAudioAsWritten`). */
  function TranscribeAudio(kind: ProviderKind, audio: seq<Byte>, outcome: FetchOutcome<string>,
                           notes: Slot<Note>, id: string, now: int): (r: Transcribed)
    ensures r.result.Ok? <==> ProviderTranscribe(kind, audio, outcome).Ok?
    ensures r.result.Ok? ==>
              && r.result.value == ProviderTranscribe(kind, audio, outcome).value
              && r.notes == AddNote(notes, r.result.value, id, now).slot
    ensures r.result.Ok? && notes.hasWindow ==>
              Load(r.notes) == [Note(id, r.result.value, now)] + GetNotes(notes)
    ensures r.result.Err? ==> r.notes == notes
    ensures r.result.Err? ==> r.result.error == GenericError || Contains(r.result.error, CredentialMarker)
    ensures r.result.Err? ==> r.result.error == Rethrown(ProviderTranscribe(kind, audio, outcome).error)
  {
    match ProviderTranscribe(kind, audio, outcome)
    case Ok(transcript) =>
      Transcribed(Ok(transcript), AddNote(notes, transcript, id, now).slot)
    case Err(e) =>
      Transcribed(Err(Rethrown(e)), notes)
  }

  /** `transcribeAudio(audio)` as the source writes it: the recording is
      converted to an ArrayBuffer before it is handed on, so with the server
      provider `append` throws before any request is sent and the caller sees
      only the generic message, whatever the route would have answered, with
      no note kept. The notebook provider ignores what it is handed. */
  function TranscribeAudioAsWritten(kind: ProviderKind, audio: seq<Byte>, outcome: FetchOutcome<string>,
                                    notes: Slot<Note>, id: string, now: int): (r: Transcribed)
    ensures kind == ServerApi ==> r.result == Err(GenericError) && r.notes == notes
    ensures kind == Notebook ==> r == TranscribeAudio(Notebook, audio, outcome, notes, id, now)
  {
    AppendErrorIsNotCredentialError();
    TranscribeAudio(kind, audio, UploadOutcome(BufferUpload, outcome), notes, id, now)
  }

  /** The wrapped `append` error does not mention the missing credential:
      no piece of it holds the marker's first character. */
  lemma AppendErrorIsNotCredentialError()
    ensures !Contains(TranscribePrefix + AppendTypeError, CredentialMarker)
  {
    var o := CredentialMarker[0];
    assert o == 'O';
    var p1, p2 := "Failed to execute 'append' on 'FormData': ", "parameter 2 is not of type 'Blob'.";
    assert Lacks(p1, o) && Lacks(p2, o) && Lacks(TranscribePrefix, o);
    LacksConcat(p1, p2, o);
    LacksConcat(TranscribePrefix, AppendTypeError, o);
    NotContainsByFirstChar(TranscribePrefix + AppendTypeError, CredentialMarker);
  }

  /** `c` occurs nowhere in `s`. */
  ghost predicate Lacks(s: string, c: char) {
    forall k | 0 <= k < |s| :: s[k] != c
  }

  lemma LacksConcat(a: string, b: string, c: char)
    requires Lacks(a, c) && Lacks(b, c)
    ensures Lacks(a + b, c)
  {
    forall k | 0 <= k < |a + b|
      ensures (a + b)[k] != c
    {
      if k >= |a| {
        assert (a + b)[k] == b[k - |a|];
      }
    }
  }

  /** The notebook provider always succeeds, so its placeholder is always kept
      as a note. */
  lemma NotebookAlwaysAddsNote(audio: seq<Byte>, outcome: FetchOutcome<string>,
                               notes: Slot<Note>, id: string, now: int)
    requires notes.hasWindow
    ensures var r := TranscribeAudio(Notebook, audio, outcome, notes, id, now);
            r.result == Ok(NotebookProvider.PlaceholderTranscript)
            && |GetNotes(r.notes)| == |GetNotes(notes)| + 1
  {
    var r := TranscribeAudio(Notebook, audio, outcome, notes, id, now);
    AddNoteThenList(notes, NotebookProvider.PlaceholderTranscript, id, now);
  }

  /** A server 401 reaches the caller as the route's own message, behind the
      provider's prefix. */
  lemma MissingKeyPropagates(audio: seq<Byte>, notes: Slot<Note>, id: string, now: int)
    ensures var r := TranscribeAudio(ServerApi, audio, NotOk(Some(MissingKeyMessage)), notes, id, now);
            r.result == Err(TranscribePrefix + MissingKeyMessage)
            && Contains(r.result.error, CredentialMarker)
            && r.notes == notes
  {
    MissingKeyResponseRecognisable();
  }

  /** Any other server failure is reduced to the generic message. */
  lemma OtherFailureIsGeneric(audio: seq<Byte>, notes: Slot<Note>, id: string, now: int)
    ensures TranscribeAudio(ServerApi, audio, NotOk(None), notes, id, now).result == Err(GenericError)
  {
    FallbackIsNotCredentialError();
  }

  /** The fallback error text does not mention the missing credential. */
  lemma FallbackIsNotCredentialError()
    ensures !Contains(TranscribePrefix + TranscribeFallback, CredentialMarker)
  {
    var e := TranscribePrefix + TranscribeFallback;
    assert e == "Failed to transcribe audio: Transcription failed";
    forall k | 0 <= k <= |e| - |CredentialMarker|
      ensures e[k] != CredentialMarker[0]
    {
    }
    NotContainsByFirstChar(e, CredentialMarker);
  }

  /** The notes store does not deduplicate: the same transcript twice is two
      notes. */
  lemma TranscribeTwiceTwoNotes(kind: ProviderKind, audio: seq<Byte>, outcome: FetchOutcome<string>,
                                notes: Slot<Note>, id1: string, now1: int, id2: string, now2: int)
    requires notes.hasWindow
    requires ProviderTranscribe(kind, audio, outcome).Ok?
    ensures var r1 := TranscribeAudio(kind, audio, outcome, notes, id1, now1);
            var r2 := TranscribeAudio(kind, audio, outcome, r1.notes, id2, now2);
            r2.result == r1.result && |GetNotes(r2.notes)| == |GetNotes(notes)| + 2
  {
    var t := ProviderTranscribe(kind, audio, outcome).value;
    var r1 := TranscribeAudio(kind, audio, outcome, notes, id1, now1);
    AddNoteThenList(notes, t, id1, now1);
    AddNoteThenList(r1.notes, t, id2, now2);
  }
}
