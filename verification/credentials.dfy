/** What the three server routes (analyze, transcribe, speech) share: the
    credential rule they each repeat before reading the request, their
    response shape, and the abstract outcomes of what they call. */
module Credentials {
  import opened Wrappers
  import opened Text

  /** The text callers look for to recognise a missing credential. */
  const CredentialMarker := "OpenAI API key is missing"

  /** The error body of a 401 response. */
  const MissingKeyMessage := CredentialMarker + ". Please set your API key."

  const BearerPrefix := "Bearer "

  /** JavaScript truthiness of an optional string: absent and "" are falsy. */
  predicate IsSet(v: Option<string>) {
    v.Some? && v.value != ""
  }

  /** The API key a route uses, or None when it must answer 401. A non-empty
      environment key wins whatever the header says; otherwise the
      `Authorization` header must start with "Bearer " and the key is the
      header with that prefix removed (possibly empty). */
  function ResolveApiKey(env: Option<string>, authorization: Option<string>): (r: Option<string>)
    ensures IsSet(env) ==> r == Some(env.value)
    ensures !IsSet(env) ==>
              (r.Some? <==> authorization.Some? && StartsWith(authorization.value, BearerPrefix))
    ensures !IsSet(env) && r.Some? ==> r.value == authorization.value[|BearerPrefix|..]
  {
    if IsSet(env) then env
    else if !IsSet(authorization) || !StartsWith(authorization.value, BearerPrefix) then None
    else
      ReplaceFirstOfPrefix(authorization.value, BearerPrefix);
      // `|| ""` turns an empty remainder into the same empty key
      Some(ReplaceFirst(authorization.value, BearerPrefix, ""))
  }

  /** A bare "Bearer " header passes the check with an empty key. */
  lemma BareBearerPasses()
    ensures ResolveApiKey(None, Some(BearerPrefix)) == Some("")
  {
  }

  /** A route's JSON answer: a success payload, or an error body with its
      HTTP status. */
  datatype Response<T> = Success(value: T) | Failure(status: nat, error: string)

  /** Every failure a route returns is one of 400, 401 or 500. */
  predicate KnownStatus<T>(r: Response<T>) {
    r.Failure? ==> r.status == 400 || r.status == 401 || r.status == 500
  }

  /** Reading the request body: it either parses or throws with a message. */
  datatype Body<T> = Malformed(message: string) | Parsed(value: T)

  /** What an SDK call does when it is made: returns a value or throws. */
  datatype Upstream<T> = Returned(value: T) | Threw(message: string)

  /** A route's response together with the upstream call it made, if any. */
  datatype RouteResult<C, T> = RouteResult(response: Response<T>, call: Option<C>)
}
