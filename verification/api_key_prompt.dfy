/** The API-key dialog (components/api-key-prompt.tsx): it renders nothing
    when hidden, its submit button is disabled while the typed key trims to
    nothing, and submitting hands the trimmed key to its `onSubmit` callback. */
module ApiKeyPrompt {
  import opened Text

  /** What the component renders for the text currently in its input. */
  datatype View = Hidden | Dialog(submitDisabled: bool)

  /** The rendered view: nothing when not visible, otherwise the dialog whose
      button is disabled exactly when the trimmed key is empty. */
  function Render(isVisible: bool, typed: string): (v: View)
    ensures v.Hidden? <==> !isVisible
    ensures v.Dialog? ==> (v.submitDisabled <==> AllWhitespace(typed))
  {
    TrimEmptyIffWhitespace(typed);
    if !isVisible then Hidden else Dialog(Trim(typed) == "")
  }

  /** `key` is what the user typed with only surrounding whitespace cut
      away, and something is left. */
  ghost predicate TypedKey(typed: string, key: string) {
    key != "" && IsTrimmed(key) && exists i :: SliceBetweenWhitespace(typed, key, i)
  }

  /** `handleSubmit`: the sequence of `onSubmit` calls one submission makes.
      At most one call, made exactly when the typed key has a non-whitespace
      character, and its argument is the typed key without surrounding
      whitespace. */
  function HandleSubmit(typed: string): (calls: seq<string>)
    ensures |calls| <= 1
    ensures |calls| == 1 <==> !AllWhitespace(typed)
    ensures forall k | 0 <= k < |calls| :: TypedKey(typed, calls[k])
  {
    var key := Trim(typed);
    TrimEmptyIffWhitespace(typed);
    if key == "" then []
    else
      TrimIsTypedKey(typed);
      [key]
  }

  lemma TrimIsTypedKey(typed: string)
    requires Trim(typed) != ""
    ensures TypedKey(typed, Trim(typed))
  {
  }

  /** The button is enabled exactly when pressing it would reach `onSubmit`. */
  lemma EnabledIffSubmits(typed: string)
    ensures !Render(true, typed).submitDisabled <==> |HandleSubmit(typed)| == 1
  {
  }

  /** Typing back the key that was submitted submits the same key again. */
  lemma ResubmitSubmitsSame(typed: string)
    requires |HandleSubmit(typed)| == 1
    ensures HandleSubmit(HandleSubmit(typed)[0]) == HandleSubmit(typed)
  {
    TrimIdempotent(typed);
  }

  /** Surrounding whitespace never changes what is submitted. */
  lemma PaddingIgnored(typed: string, pad1: string, pad2: string)
    requires AllWhitespace(pad1) && AllWhitespace(pad2)
    requires IsTrimmed(typed)
    ensures HandleSubmit(pad1 + typed + pad2) == HandleSubmit(typed)
  {
    TrimOfTrimmed(typed);
    PaddedTrim(pad1, typed, pad2);
  }
}
