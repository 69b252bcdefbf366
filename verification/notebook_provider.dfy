/** The offline provider (lib/notebook-provider.ts): a stub that answers every
    request with the same placeholder values. */
module NotebookProvider {
  import opened Wrappers
  import opened Text
  import AnalyzeRoute

  const PlaceholderTranscript := "This is a placeholder transcription from Notebook LM. Offline transcription is not yet implemented."
  const PlaceholderTask := "Placeholder task from Notebook LM"

  /** `transcribeAudio(audio)`: the placeholder sentence, whatever the audio. */
  function TranscribeAudio(audio: seq<Byte>): (text: string)
    ensures text == PlaceholderTranscript
  {
    PlaceholderTranscript
  }

  /** `analyzeText(text)`: one placeholder task, whatever the text; like every
      list the server route returns, its entry is trimmed, non-empty and not
      the "no tasks" sentinel. */
  function AnalyzeText(text: string): (tasks: seq<string>)
    ensures tasks == [PlaceholderTask]
    ensures forall i | 0 <= i < |tasks| :: IsTrimmed(tasks[i]) && AnalyzeRoute.KeepLine(tasks[i])
  {
    [PlaceholderTask]
  }

  /** Both operations ignore their input. */
  lemma Deterministic(a1: seq<Byte>, a2: seq<Byte>, t1: string, t2: string)
    ensures TranscribeAudio(a1) == TranscribeAudio(a2)
    ensures AnalyzeText(t1) == AnalyzeText(t2)
  {
  }

  /** The placeholder task is exactly what the server's parser would extract
      from a reply consisting of that line. */
  lemma PlaceholderIsExtractable()
    ensures AnalyzeRoute.ExtractTasks(PlaceholderTask) == AnalyzeText("")
  {
    assert IsTrimmed(PlaceholderTask);
    assert '\n' !in PlaceholderTask;
    AnalyzeRoute.SingleTask(PlaceholderTask);
  }
}
