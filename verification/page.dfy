/** The home page's API-key handling (app/page.tsx): on mount it decides
    whether to show the key prompt, and a submitted key is validated by the
    server before it is stored in the browser. */
module Page {
  import opened Wrappers
  import opened Text
  import opened Credentials
  import opened ApiKeyPrompt

  /** The `localStorage` key under which an accepted key is kept. */
  const ApiKeyStorageKey := "openai-api-key"
  const InvalidKeyAlert := "Invalid API key. Please try again."
  const ValidationErrorAlert := "Error validating API key. Please try again."

  /** What `GET /api/check-api-key` followed by `response.json()` gives: the
      `available` flag, or a thrown error (network failure or a body that
      does not parse). */
  datatype Availability = Answered(available: bool) | Unreachable

  /** The availability route: a key is available when the environment holds
      a non-empty one. */
  function CheckApiKey(env: Option<string>): (r: Availability)
    ensures r.Answered? && (r.available <==> IsSet(env))
  {
    Answered(IsSet(env))
  }

  /** The page after its mount effect: whether the prompt is shown and
      whether the availability route was queried. */
  datatype Mounted = Mounted(showPrompt: bool, queried: bool)

  /** The mount effect, starting from the prompt hidden. Outside a browser
      nothing happens. A stored non-empty key hides the prompt without a
      query; otherwise the prompt is hidden only when the server answers that
      a key is available. */
  function OnMount(hasWindow: bool, storedKey: Option<string>, availability: Availability): (r: Mounted)
    ensures r.queried <==> hasWindow && !IsSet(storedKey)
    ensures IsSet(storedKey) ==> !r.showPrompt
    ensures !hasWindow ==> !r.showPrompt
    ensures r.queried ==> (r.showPrompt <==> availability != Answered(true))
  {
    if !hasWindow then Mounted(false, false)
    else if IsSet(storedKey) then Mounted(false, false)
    else
      match availability
      case Answered(available) => Mounted(!available, true)
      case Unreachable => Mounted(true, true)
  }

  /** In a browser that reaches the server, the prompt is shown exactly when
      neither the browser nor the server environment holds a key. */
  lemma PromptShownIffNoKeyAnywhere(storedKey: Option<string>, env: Option<string>)
    ensures OnMount(true, storedKey, CheckApiKey(env)).showPrompt <==> !IsSet(storedKey) && !IsSet(env)
  {
  }

  /** A failed availability request shows the prompt when no key is stored. */
  lemma UnreachableServerShowsPrompt(storedKey: Option<string>)
    requires !IsSet(storedKey)
    ensures OnMount(true, storedKey, Unreachable) == Mounted(true, true)
  {
  }

  /** What `POST /api/validate-api-key` followed by `response.json()` gives:
      the `valid` flag, or a thrown error. */
  datatype Validation = Replied(valid: bool) | Failed

  /** The browser side of the page: the prompt's visibility and the stored
      key. */
  datatype PageState = PageState(showPrompt: bool, storedKey: Option<string>)

  datatype Submitted = Submitted(state: PageState, alert: Option<string>)

  /** `handleApiKeySubmit(apiKey)`: a key the server calls valid is stored
      and the prompt hidden; otherwise nothing is stored, the prompt stays as
      it was and an alert names the failure. */
  function HandleApiKeySubmit(state: PageState, apiKey: string, validation: Validation): (r: Submitted)
    ensures validation == Replied(true) <==> r.alert.None?
    ensures r.alert.None? ==> r.state == PageState(false, Some(apiKey))
    ensures r.alert.Some? ==> r.state == state
    ensures r.alert == Some(InvalidKeyAlert) <==> validation == Replied(false)
    ensures r.alert == Some(ValidationErrorAlert) <==> validation.Failed?
  {
    match validation
    case Replied(valid) =>
      if valid then Submitted(PageState(false, Some(apiKey)), None)
      else Submitted(state, Some(InvalidKeyAlert))
    case Failed => Submitted(state, Some(ValidationErrorAlert))
  }

  /** A key typed into the prompt and accepted by the server means the next
      visit hides the prompt without asking the server. */
  lemma AcceptedKeySkipsCheckNextVisit(state: PageState, typed: string, availability: Availability)
    requires |HandleSubmit(typed)| == 1
    ensures var r := HandleApiKeySubmit(state, HandleSubmit(typed)[0], Replied(true));
            OnMount(true, r.state.storedKey, availability) == Mounted(false, false)
  {
    assert TypedKey(typed, HandleSubmit(typed)[0]);
  }

  /** A rejected key leaves a hidden prompt hidden and a shown one shown, and
      the next visit behaves as before. */
  lemma RejectedKeyChangesNothing(state: PageState, apiKey: string, validation: Validation,
                                  availability: Availability)
    requires validation != Replied(true)
    ensures var r := HandleApiKeySubmit(state, apiKey, validation);
            OnMount(true, r.state.storedKey, availability) == OnMount(true, state.storedKey, availability)
  {
  }
}
