/** The native recorder service (lib/services/native-recorder-service.ts): an
    `isRecording` flag guarding start and stop, the options sent to the
    native voice-recorder plugin or the Android bridge, and the conversion of
    the decoded recording into bytes. */
module NativeRecorder {
  import opened Wrappers

  const NotAvailable := "Native recording not available"
  const NotRecording := "Not recording"
  const PermissionDenied := "Permission to record audio was denied"
  const DefaultMaxDuration := 30000
  const WavType := "audio/wav"

  /** The service's two flags. */
  datatype Recorder = Recorder(isRecording: bool, isAvailable: bool)

  /** `{ maxDuration?, quality? }`; an absent options object is `Options(None, None)`. */
  datatype Options = Options(maxDuration: Option<int>, quality: Option<string>)

  /** What the page offers for starting: the voice-recorder plugin (whether it
      grants permission and what its start throws, if anything), the Android
      bridge (what its start throws, if anything), or neither. */
  datatype StartBridge =
    | PluginStart(permitted: bool, failure: Option<string>)
    | AndroidStart(failure: Option<string>)
    | NoStartBridge

  /** The arguments of the plugin's `startRecording`. */
  datatype PluginSettings = PluginSettings(mimeType: string, bitRate: int, sampleRate: int, maxDuration: int)

  /** What a successful native start did. */
  datatype NativeStart = PluginStarted(settings: PluginSettings) | AndroidStarted(maxDuration: int)

  /** The bit rate for a quality name: 128 kbit/s for "high", 64 for
      "medium", 32 for anything else, an absent quality included. */
  function BitRate(quality: Option<string>): (b: int)
    ensures quality == Some("high") ==> b == 128000
    ensures quality == Some("medium") ==> b == 64000
    ensures quality != Some("high") && quality != Some("medium") ==> b == 32000
  {
    if quality == Some("high") then 128000 else if quality == Some("medium") then 64000 else 32000
  }

  /** The sample rate for a quality name, on the same three tiers. */
  function SampleRate(quality: Option<string>): (r: int)
    ensures quality == Some("high") ==> r == 44100
    ensures quality == Some("medium") ==> r == 22050
    ensures quality != Some("high") && quality != Some("medium") ==> r == 16000
  {
    if quality == Some("high") then 44100 else if quality == Some("medium") then 22050 else 16000
  }

  /** The two rates always come from the same tier: a higher bit rate never
      pairs with a lower sample rate. */
  lemma RatesMonotone(q1: Option<string>, q2: Option<string>)
    ensures BitRate(q1) <= BitRate(q2) <==> SampleRate(q1) <= SampleRate(q2)
  {
  }

  /** `options?.maxDuration || 30000`: absent and 0 both fall back. */
  function MaxDuration(options: Options): (d: int)
    ensures options.maxDuration.None? || options.maxDuration == Some(0) ==> d == DefaultMaxDuration
    ensures options.maxDuration.Some? && options.maxDuration.value != 0 ==> d == options.maxDuration.value
  {
    if options.maxDuration.Some? && options.maxDuration.value != 0 then options.maxDuration.value
    else DefaultMaxDuration
  }

  /** `nativeStartRecording(options)`: the plugin first (after asking for
      permission), then the Android bridge, else an error. */
  function NativeStartRecording(bridge: StartBridge, options: Options): (r: Result<NativeStart, string>)
    ensures bridge.NoStartBridge? ==> r == Err(NotAvailable)
    ensures bridge.PluginStart? && !bridge.permitted ==> r == Err(PermissionDenied)
    ensures r.Ok? && r.value.PluginStarted? ==>
              r.value.settings == PluginSettings(WavType, BitRate(options.quality), SampleRate(options.quality),
                                                 MaxDuration(options))
    ensures r.Ok? && r.value.AndroidStarted? ==> r.value.maxDuration == MaxDuration(options)
    ensures r.Ok? <==> (bridge.PluginStart? && bridge.permitted && bridge.failure.None?)
                       || (bridge.AndroidStart? && bridge.failure.None?)
  {
    match bridge
    case PluginStart(permitted, failure) =>
      if !permitted then Err(PermissionDenied)
      else if failure.Some? then Err(failure.value)
      else Ok(PluginStarted(PluginSettings(WavType, BitRate(options.quality), SampleRate(options.quality),
                                           MaxDuration(options))))
    case AndroidStart(failure) =>
      if failure.Some? then Err(failure.value) else Ok(AndroidStarted(MaxDuration(options)))
    case NoStartBridge => Err(NotAvailable)
  }

  datatype StartOutcome = StartOutcome(recorder: Recorder, result: Result<Option<NativeStart>, string>)

  /** `startRecording(options)`: a no-op while recording; otherwise the native
      start, after which the flag is set only if it succeeded. */
  function StartRecording(rec: Recorder, bridge: StartBridge, options: Options): (r: StartOutcome)
    ensures rec.isRecording ==> r == StartOutcome(rec, Ok(None))
    ensures !rec.isRecording && !rec.isAvailable ==> r == StartOutcome(rec, Err(NotAvailable))
    ensures r.result.Err? ==> r.recorder == rec && !r.recorder.isRecording
    ensures !rec.isRecording && r.result.Ok? ==>
              r.recorder == rec.(isRecording := true) && r.result.value.Some?
              && Ok(r.result.value.value) == NativeStartRecording(bridge, options)
    ensures r.recorder.isAvailable == rec.isAvailable
  {
    if rec.isRecording then StartOutcome(rec, Ok(None))
    else if !rec.isAvailable then StartOutcome(rec, Err(NotAvailable))
    else
      match NativeStartRecording(bridge, options)
      case Ok(started) => StartOutcome(rec.(isRecording := true), Ok(Some(started)))
      case Err(e) => StartOutcome(rec, Err(e))
  }

  /** `isCurrentlyRecording()` after a start reports whether the start
      reached the native layer successfully or recording was already on. */
  lemma StartThenQuery(rec: Recorder, bridge: StartBridge, options: Options)
    ensures StartRecording(rec, bridge, options).recorder.isRecording <==>
              rec.isRecording || (rec.isAvailable && NativeStartRecording(bridge, options).Ok?)
  {
  }

  // ---------------------------------------------------------------------------
  // Stopping
  // ---------------------------------------------------------------------------

  /** What the page offers for stopping, with the recording already decoded
      from base64 into a binary string: the plugin's or the bridge's data, an
      error thrown on the way, or no bridge at all. */
  datatype StopBridge = Decoded(binary: string) | StopFailed(message: string) | NoStopBridge

  /** `new Blob([bytes], { type: "audio/wav" })` */
  datatype WavBlob = WavBlob(bytes: seq<Byte>, mimeType: string)

  /** The byte a character code becomes in a `Uint8Array`: its low eight
      bits. */
  function ByteOf(c: char): (b: Byte)
    ensures (c as int) < 256 ==> b == c as int
  {
    (c as int) % 256
  }

  /** The character a byte decodes to under `atob`. */
  function CharOf(b: Byte): char {
    b as char
  }

  /** The loop copying `charCodeAt(i)` into a byte array. */
  method ToBytes(s: string) returns (bytes: seq<Byte>)
    ensures |bytes| == |s|
    ensures forall i | 0 <= i < |s| :: bytes[i] == ByteOf(s[i])
  {
    bytes := [];
    var i := 0;
    while i < |s|
      invariant 0 <= i <= |s|
      invariant |bytes| == i
      invariant forall j | 0 <= j < i :: bytes[j] == ByteOf(s[j])
    {
      bytes := bytes + [ByteOf(s[i])];
      i := i + 1;
    }
  }

  /** A binary string (every character below 256), as `atob` produces,
      converts to bytes without loss: decoding the bytes gives it back. */
  method ToBytesRoundTrip(s: string) returns (bytes: seq<Byte>)
    requires forall i | 0 <= i < |s| :: (s[i] as int) < 256
    ensures |bytes| == |s|
    ensures forall i | 0 <= i < |s| :: bytes[i] == s[i] as int
    ensures seq(|bytes|, i requires 0 <= i < |bytes| => CharOf(bytes[i])) == s
  {
    bytes := ToBytes(s);
  }

  /** `stopRecording()`: an error when not recording; otherwise the native
      stop, after which the flag is cleared whatever happened. */
  method StopRecording(rec: Recorder, bridge: StopBridge) returns (after: Recorder, result: Result<WavBlob, string>)
    ensures !rec.isRecording ==> after == rec && result == Err(NotRecording)
    ensures rec.isRecording ==> after == rec.(isRecording := false)
    ensures rec.isRecording && !rec.isAvailable ==> result == Err(NotAvailable)
    ensures rec.isRecording && rec.isAvailable && bridge.NoStopBridge? ==> result == Err(NotAvailable)
    ensures rec.isRecording && rec.isAvailable && bridge.StopFailed? ==> result == Err(bridge.message)
    ensures result.Ok? <==> rec.isRecording && rec.isAvailable && bridge.Decoded?
    ensures result.Ok? ==>
              && result.value.mimeType == WavType
              && |result.value.bytes| == |bridge.binary|
              && forall i | 0 <= i < |bridge.binary| :: result.value.bytes[i] == ByteOf(bridge.binary[i])
  {
    if !rec.isRecording {
      return rec, Err(NotRecording);
    }
    after := rec.(isRecording := false);
    if !rec.isAvailable {
      return after, Err(NotAvailable);
    }
    match bridge
    case Decoded(binary) =>
      var bytes := ToBytes(binary);
      result := Ok(WavBlob(bytes, WavType));
    case StopFailed(message) =>
      result := Err(message);
    case NoStopBridge =>
      result := Err(NotAvailable);
  }
}
