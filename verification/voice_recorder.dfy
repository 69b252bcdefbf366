/** The recording widget's logic (components/voice-recorder.tsx): the timer
    label, the toast chosen for each outcome, the stop pipeline (transcribe,
    then analyze, then reset) and which button is offered. */
module VoiceRecorder {
  import opened Wrappers
  import opened Text
  import opened Decimal
  import opened Storage
  import opened Credentials
  import opened Notes
  import opened Todos
  import opened AiService
  import opened Transcription
  import opened Analysis

  // ---------------------------------------------------------------------------
  // The timer label
  // ---------------------------------------------------------------------------

  /** One field of the label: `n.toString().padStart(2, "0")`, which reads
      back as `n` and is exactly two characters below 100. */
  function Field(n: nat): (f: string)
    ensures forall i | 0 <= i < |f| :: IsDigit(f[i])
    ensures ParseDigits(f) == n
    ensures |f| >= 2 && (|f| == 2 <==> n < 100)
  {
    var f := PadStart(NatToString(n), 2, '0');
    ParsePadded(n, 2, f);
    MinutesWidth(n);
    f
  }

  /** Below 100 a field is the number's two decimal digits. */
  lemma ShortField(n: nat)
    requires n < 100
    ensures Field(n) == [Digit(n / 10), Digit(n % 10)]
  {
    TwoDigits(n);
  }

  /** `formatTime(seconds)`: minutes and seconds, each zero-padded to two
      places, around a colon. The seconds field is always two digits below
      60; the minutes field widens past 99 minutes. */
  function FormatTime(seconds: nat): (r: string)
    ensures ClockReading(r, seconds)
  {
    MinutesAndSeconds(seconds);
    var mins, secs := Field(seconds / 60), Field(seconds % 60);
    ClockLabel(mins, secs, seconds);
    mins + ":" + secs
  }

  /** `r` is an `mm:ss` label for `seconds`: a colon three places from the
      end with digits everywhere else, the part before it reading as the whole
      minutes and the two after it as the remaining seconds, and exactly five
      characters while the minutes stay below 100. */
  ghost predicate ClockReading(r: string, seconds: nat) {
    && |r| >= 5 && r[|r| - 3] == ':'
    && (forall i | 0 <= i < |r| && i != |r| - 3 :: IsDigit(r[i]))
    && ParseDigits(r[..|r| - 3]) == seconds / 60
    && ParseDigits(r[|r| - 2..]) == seconds % 60 < 60
    && (|r| == 5 <==> seconds < 6000)
  }

  /** Splitting a number of seconds into whole minutes and the rest. */
  lemma MinutesAndSeconds(seconds: nat)
    ensures 0 <= seconds % 60 < 60
    ensures seconds / 60 < 100 <==> seconds < 6000
  {
  }

  /** Two digit fields around a colon, reading as the minutes and seconds of
      `seconds`: where the colon sits and what lies on either side of it. */
  lemma ClockLabel(mins: string, secs: string, seconds: nat)
    requires |mins| >= 2 && |secs| == 2
    requires forall i | 0 <= i < |mins| :: IsDigit(mins[i])
    requires forall i | 0 <= i < |secs| :: IsDigit(secs[i])
    requires ParseDigits(mins) == seconds / 60 && ParseDigits(secs) == seconds % 60 < 60
    requires |mins| == 2 <==> seconds < 6000
    ensures ClockReading(mins + ":" + secs, seconds)
  {
    var r := mins + ":" + secs;
    assert r[..|r| - 3] == mins;
    assert r[|r| - 2..] == secs;
    forall i | 0 <= i < |r| && i != |r| - 3
      ensures IsDigit(r[i])
    {
      if i < |mins| {
        assert r[i] == mins[i];
      } else {
        assert r[i] == secs[i - |mins| - 1];
      }
    }
  }

  /** The padded minutes field is two characters exactly below 100. */
  lemma MinutesWidth(m: nat)
    ensures |PadStart(NatToString(m), 2, '0')| >= 2
    ensures |PadStart(NatToString(m), 2, '0')| == 2 <==> m < 100
  {
    if m < 100 {
      TwoDigits(m);
    } else {
      NatToStringLong(m);
    }
  }

  /** Numbers from 100 up render with at least three digits. */
  lemma NatToStringLong(n: nat)
    requires n >= 100
    ensures |NatToString(n)| >= 3
  {
    assert NatToString(n) == NatToString(n / 10) + [Digit(n % 10)];
  }

  /** Below 100 minutes the label is exactly five characters: two minute
      digits, a colon and two second digits. */
  lemma FormatTimeShort(seconds: nat)
    requires seconds < 6000
    ensures FormatTime(seconds) == [Digit(seconds / 60 / 10), Digit(seconds / 60 % 10), ':',
                                    Digit(seconds % 60 / 10), Digit(seconds % 60 % 10)]
  {
    MinutesAndSeconds(seconds);
    var m, s := seconds / 60, seconds % 60;
    FormatTimeFields(seconds, m, s);
    ShortField(m);
    ShortField(s);
    ShortLabel(Field(m), Field(s));
  }

  /** The label is the minutes field, a colon and the seconds field. */
  lemma FormatTimeFields(seconds: nat, m: nat, s: nat)
    requires m == seconds / 60 && s == seconds % 60
    ensures FormatTime(seconds) == Field(m) + ":" + Field(s)
  {
  }

  /** Two two-character fields around a colon, character by character. */
  lemma ShortLabel(mins: string, secs: string)
    requires |mins| == 2 && |secs| == 2
    ensures mins + ":" + secs == [mins[0], mins[1], ':', secs[0], secs[1]]
  {
  }

  /** `r` is a five-character label whose fields read as `mins` and `secs`. */
  predicate ReadsAs(r: string, mins: nat, secs: nat) {
    && |r| == 5 && r[2] == ':'
    && (forall i | 0 <= i < 5 && i != 2 :: IsDigit(r[i]))
    && ParseDigits(r[..2]) == mins
    && ParseDigits(r[3..]) == secs
  }

  /** Below 100 minutes the label is five characters whose two fields read
      back as the minutes and the remaining seconds, which together give the
      seconds back. */
  lemma FormatTimeRoundTrip(seconds: nat)
    requires seconds < 6000
    ensures ReadsAs(FormatTime(seconds), seconds / 60, seconds % 60)
    ensures ReadsAsSeconds(FormatTime(seconds), seconds)
  {
    var r := FormatTime(seconds);
    LabelFields(r, seconds);
    FieldsGiveSeconds(r, seconds);
  }

  /** `r` is a five-character label that reads as `seconds` in total. */
  predicate ReadsAsSeconds(r: string, seconds: nat) {
    && |r| == 5 && r[2] == ':'
    && (forall i | 0 <= i < 5 && i != 2 :: IsDigit(r[i]))
    && ParseDigits(r[..2]) * 60 + ParseDigits(r[3..]) == seconds
  }

  /** Minutes times sixty plus the remaining seconds is the whole. */
  lemma FieldsGiveSeconds(r: string, seconds: nat)
    requires ReadsAs(r, seconds / 60, seconds % 60)
    ensures ReadsAsSeconds(r, seconds)
  {
  }

  /** A label with the shape `formatTime` guarantees, read field by field. */
  lemma LabelFields(r: string, seconds: nat)
    requires ClockReading(r, seconds) && |r| == 5
    ensures ReadsAs(r, seconds / 60, seconds % 60)
  {
    assert r[..2] == r[..|r| - 3];
    assert r[3..] == r[|r| - 2..];
  }

  /** Under a minute the label is "00:" and the two digits of the seconds. */
  lemma UnderAMinute(seconds: nat)
    requires seconds < 60
    ensures FormatTime(seconds) == "00:" + [Digit(seconds / 10), Digit(seconds % 10)]
  {
    FormatTimeFields(seconds, 0, seconds);
    ShortField(0);
    ShortField(seconds);
    ZeroField(Field(0));
  }

  /** A field rendered from zero, put in front of a colon. */
  lemma ZeroField(f: string)
    requires f == [Digit(0 / 10), Digit(0 % 10)]
    ensures forall g :: f + ":" + g == "00:" + g
  {
    assert f == "00";
  }

  lemma FormatTimeAtStart()
    ensures FormatTime(0) == "00:00"
  {
    UnderAMinute(0);
  }

  /** Thirty seconds in, the label reads "00:30". */
  lemma FormatTimeAtHalfMinute(seconds: nat)
    requires seconds == 30
    ensures FormatTime(seconds) == "00:30"
  {
    UnderAMinute(seconds);
    DigitsOfThirty(seconds);
  }

  lemma DigitsOfThirty(seconds: nat)
    requires seconds == 30
    ensures "00:" + [Digit(seconds / 10), Digit(seconds % 10)] == "00:30"
  {
    assert seconds / 10 == 3 && seconds % 10 == 0;
  }

  // ---------------------------------------------------------------------------
  // Toasts
  // ---------------------------------------------------------------------------

  datatype Toast =
    | MicrophoneError
    | ProcessingComplete
    | ApiKeyMissing
    | ProcessingError
    | RecordingError

  /** The toast for a failed transcription or analysis: the credential marker
      anywhere in the message means "API Key Missing", anything else is a
      processing error. */
  function ErrorToast(message: string): (t: Toast)
    ensures t == ApiKeyMissing <==> Contains(message, CredentialMarker)
    ensures t == ApiKeyMissing || t == ProcessingError
  {
    if Contains(message, CredentialMarker) then ApiKeyMissing else ProcessingError
  }

  // ---------------------------------------------------------------------------
  // Widget state and the stop pipeline
  // ---------------------------------------------------------------------------

  datatype Ui = Ui(isListening: bool, isProcessing: bool, transcript: string, recordingTime: nat)

  /** The stores the pipeline writes. */
  datatype World = World(notes: Slot<Note>, todos: Slot<Todo>)

  /** What the outcome of the browser side of a stop is: the media recorder
      was absent or inactive, stopping it threw, or it yielded audio. */
  datatype Capture = Inactive | CaptureFailed | Captured(audio: seq<Byte>)

  /** Everything the two provider calls and the two stores need. */
  datatype Services = Services(kind: ProviderKind,
                               transcribeOutcome: FetchOutcome<string>,
                               analyzeOutcome: FetchOutcome<seq<string>>,
                               noteId: string, noteTime: int,
                               stamps: nat -> Stamp)

  datatype Stopped = Stopped(ui: Ui, world: World, toast: Option<Toast>, analyzed: bool)

  /** The `try` body of `stopRecording` once the audio is in hand:
      transcription first, and analysis only when it succeeded. */
  function Process(ui: Ui, audio: seq<Byte>, svc: Services, world: World): (r: Stopped)
    ensures var t := TranscribeAudio(svc.kind, audio, svc.transcribeOutcome, world.notes, svc.noteId, svc.noteTime);
            && r.world.notes == t.notes
            && (r.analyzed <==> t.result.Ok?)
            && (t.result.Err? ==> r.toast == Some(ErrorToast(t.result.error)) && r.world.todos == world.todos
                                  && r.ui == ui)
            && (t.result.Ok? ==> r.ui == ui.(transcript := t.result.value))
    ensures var t := TranscribeAudio(svc.kind, audio, svc.transcribeOutcome, world.notes, svc.noteId, svc.noteTime);
            t.result.Ok? ==>
              var a := AnalyzeText(svc.kind, t.result.value, svc.analyzeOutcome, world.todos, svc.stamps);
              && r.world.todos == a.todos
              && (a.error.None? ==> r.toast == Some(ProcessingComplete))
              && (a.error.Some? ==> r.toast == Some(ErrorToast(a.error.value)) && r.toast != Some(ApiKeyMissing))
  {
    var t := TranscribeAudio(svc.kind, audio, svc.transcribeOutcome, world.notes, svc.noteId, svc.noteTime);
    match t.result
    case Err(e) => Stopped(ui, world.(notes := t.notes), Some(ErrorToast(e)), false)
    case Ok(text) =>
      var a := AnalyzeText(svc.kind, text, svc.analyzeOutcome, world.todos, svc.stamps);
      NotContainsByFirstChar(Analysis.GenericError, CredentialMarker);
      var toast := if a.error.Some? then ErrorToast(a.error.value) else ProcessingComplete;
      Stopped(ui.(transcript := text), World(t.notes, a.todos), Some(toast), true)
  }

  /** `stopRecording()`: leaves listening and enters processing, runs the
      pipeline when there is audio, and in every case ends with processing
      off and the timer at zero. */
  function StopRecording(ui: Ui, capture: Capture, svc: Services, world: World): (r: Stopped)
    ensures !r.ui.isListening && !r.ui.isProcessing && r.ui.recordingTime == 0
    ensures r.analyzed ==> capture.Captured?
    ensures capture.Inactive? ==> r.toast.None? && r.world == world && r.ui.transcript == ui.transcript
    ensures capture.CaptureFailed? ==> r.toast == Some(RecordingError) && r.world == world
    ensures capture.Captured? ==> r.toast.Some?
    ensures capture.Captured? ==>
              var p := Process(ui.(isListening := false, isProcessing := true), capture.audio, svc, world);
              && r.world == p.world && r.toast == p.toast && r.analyzed == p.analyzed
              && r.ui.transcript == p.ui.transcript
    ensures r.toast == Some(ApiKeyMissing) ==>
              capture.Captured?
              && var t := TranscribeAudio(svc.kind, capture.audio, svc.transcribeOutcome, world.notes,
                                          svc.noteId, svc.noteTime);
                 t.result.Err? && Contains(t.result.error, CredentialMarker) && !r.analyzed
  {
    var busy := ui.(isListening := false, isProcessing := true);
    var r :=
      match capture
      case Inactive => Stopped(busy, world, None, false)
      case CaptureFailed => Stopped(busy, world, Some(RecordingError), false)
      case Captured(audio) =>
        Process(busy, audio, svc, world);
    // finally
    r.(ui := r.ui.(isProcessing := false, recordingTime := 0))
  }

  /** `startRecording()`: with microphone access the widget starts listening;
      without it, a microphone toast and no change. */
  function StartRecording(ui: Ui, microphone: bool): (r: (Ui, Option<Toast>))
    ensures microphone ==> r.0 == ui.(isListening := true) && r.1.None?
    ensures !microphone ==> r.0 == ui && r.1 == Some(MicrophoneError)
  {
    if microphone then (ui.(isListening := true), None) else (ui, Some(MicrophoneError))
  }

  // ---------------------------------------------------------------------------
  // What is shown
  // ---------------------------------------------------------------------------

  predicate StopButtonShown(ui: Ui) {
    ui.isListening
  }

  predicate StartButtonShown(ui: Ui) {
    !ui.isListening && !ui.isProcessing
  }

  predicate TranscriptShown(ui: Ui) {
    ui.transcript != "" && !ui.isListening && !ui.isProcessing
  }

  /** At most one of the two buttons is shown, and after any stop the start
      button is offered again. */
  lemma ButtonsAfterStop(ui: Ui, capture: Capture, svc: Services, world: World)
    ensures !(StopButtonShown(ui) && StartButtonShown(ui))
    ensures var r := StopRecording(ui, capture, svc, world);
            StartButtonShown(r.ui) && !StopButtonShown(r.ui)
  {
  }

  /** Once the upload reaches the route (the recording handed on as a Blob):
      with the shipped configuration and no server key, a recording ends in
      the "API Key Missing" toast, and neither analysis nor a note happens. */
  lemma MissingServerKeyShowsApiKeyToast(ui: Ui, audio: seq<Byte>, svc: Services, world: World)
    requires svc.kind == GetAIProvider(ShippedProvider)
    requires svc.transcribeOutcome == NotOk(Some(MissingKeyMessage))
    ensures var r := StopRecording(ui, Captured(audio), svc, world);
            r.toast == Some(ApiKeyMissing) && !r.analyzed && r.world == world
  {
    MissingKeyPropagates(audio, world.notes, svc.noteId, svc.noteTime);
  }

  /** A missing key met during analysis is reported only as a processing
      error, because analysis drops the marker. */
  lemma MissingKeyDuringAnalysisIsGeneric(ui: Ui, audio: seq<Byte>, svc: Services, world: World)
    requires svc.kind == ServerApi
    requires svc.transcribeOutcome.OkBody?
    requires svc.analyzeOutcome == NotOk(Some(MissingKeyMessage))
    ensures var r := StopRecording(ui, Captured(audio), svc, world);
            r.toast == Some(ProcessingError) && r.analyzed && r.world.todos == world.todos
  {
    NotContainsByFirstChar(Analysis.GenericError, CredentialMarker);
  }

  /** As the source hands the recording on, a recording with the shipped
      configuration always ends in the "Processing Error" toast, whatever the
      route would have answered, and "API Key Missing" is never shown for it. */
  lemma AsWrittenUploadShowsProcessingError(audio: seq<Byte>, outcome: FetchOutcome<string>,
                                            notes: Slot<Note>, id: string, now: int)
    ensures var t := TranscribeAudioAsWritten(GetAIProvider(ShippedProvider), audio, outcome, notes, id, now);
            t.result.Err? && ErrorToast(t.result.error) == ProcessingError && t.notes == notes
  {
    GenericErrorLacksMarker();
  }
}
