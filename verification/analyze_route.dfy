/** The task-extraction route (app/api/analyze/route.ts): credential check,
    then the `text` field, then one chat completion whose reply is split into
    task lines. */
module AnalyzeRoute {
  import opened Wrappers
  import opened Text
  import opened Credentials
  import opened Collections

  const NoTasksSentinel := "No tasks found."
  const ErrorPrefix := "Failed to analyze text: "
  const Model := "gpt-4o"
  const SystemPrompt := "Extract any tasks or to-do items from the text. Format each task on a new line. If there are no tasks, respond with '" + NoTasksSentinel + "'"

  /** The chat completion the route requests. */
  datatype ChatCall = ChatCall(model: string, system: string, user: string, apiKey: string)

  // ---------------------------------------------------------------------------
  // Parsing the model's reply
  // ---------------------------------------------------------------------------

  /** A trimmed line survives when it is non-empty and not exactly the
      sentinel (case variants survive). */
  predicate KeepLine(t: string) {
    t != "" && t != NoTasksSentinel
  }

  /** `lines.map(line => line.trim())`. */
  function TrimLines(lines: seq<string>): seq<string> {
    seq(|lines|, i requires 0 <= i < |lines| => Trim(lines[i]))
  }

  /** `lines.map(trim).filter(line => line && line !== sentinel)`: every task
      is a trimmed keepable line, every line that trims to a keepable task is
      among the tasks, and the tasks keep the order of their lines. */
  function KeepTasks(lines: seq<string>): (tasks: seq<string>)
    ensures forall i | 0 <= i < |tasks| :: IsTrimmed(tasks[i]) && KeepLine(tasks[i])
    ensures forall i | 0 <= i < |lines| && KeepLine(Trim(lines[i])) :: Trim(lines[i]) in tasks
    ensures SubsequenceOf(tasks, TrimLines(lines))
    ensures |tasks| == Count(TrimLines(lines), KeepLine) <= |lines|
  {
    var trimmed := TrimLines(lines);
    var tasks := Filter(trimmed, KeepLine);
    forall i | 0 <= i < |tasks|
      ensures IsTrimmed(tasks[i])
    {
      var k :| 0 <= k < |trimmed| && trimmed[k] == tasks[i];
    }
    assert forall i | 0 <= i < |lines| :: trimmed[i] == Trim(lines[i]);
    FilterSubsequence(trimmed, KeepLine);
    tasks
  }

  /** The task list the route returns for a reply text. */
  function ExtractTasks(reply: string): (tasks: seq<string>)
    ensures |tasks| <= |Split(reply, '\n')|
  {
    KeepTasks(Split(reply, '\n'))
  }

  /** `response.choices[0]?.message.content || "No tasks found."` */
  function ReplyText(content: Option<string>): string {
    if IsSet(content) then content.value else NoTasksSentinel
  }

  /** The sentinel on its own line is dropped. */
  lemma SentinelLineDropped()
    ensures KeepTasks([NoTasksSentinel]) == []
  {
    SentinelFacts();
    KeepTasksOfTrimmed([NoTasksSentinel]);
    assert [NoTasksSentinel][1..] == [];
  }

  /** A missing or empty reply becomes the sentinel and yields no tasks. */
  lemma EmptyReplyHasNoTasks(content: Option<string>)
    requires !IsSet(content)
    ensures ExtractTasks(ReplyText(content)) == []
  {
    assert ReplyText(content) == NoTasksSentinel;
    SplitOfPlain(NoTasksSentinel, '\n');
    assert Split(NoTasksSentinel, '\n') == [NoTasksSentinel];
    SentinelLineDropped();
  }

  /** Three separator-free pieces joined by line breaks split back into
      those pieces. */
  lemma SplitThreeLines(a: string, b: string, c: string)
    requires '\n' !in a && '\n' !in b && '\n' !in c
    ensures Split(a + "\n" + b + "\n" + c, '\n') == [a, b, c]
  {
    assert a + "\n" + b + "\n" + c == a + ['\n'] + (b + ['\n'] + c);
    SplitAfterPiece(a, '\n', b + ['\n'] + c);
    SplitAfterPiece(b, '\n', c);
    SplitOfPlain(c, '\n');
  }

  /** The sentinel is one trimmed line that is not a task. */
  lemma SentinelFacts()
    ensures '\n' !in NoTasksSentinel && IsTrimmed(NoTasksSentinel) && !KeepLine(NoTasksSentinel)
  {
  }

  /** Two task lines before a trimmed line that is not a task give the two
      tasks. */
  lemma KeepTwoThenDropped(a: string, b: string, c: string)
    requires IsTrimmed(a) && KeepLine(a) && IsTrimmed(b) && KeepLine(b)
    requires IsTrimmed(c) && !KeepLine(c)
    ensures KeepTasks([a, b, c]) == [a, b]
  {
    KeepTasksOfTrimmed([a, b, c]);
    FilterTwoOfThree(a, b, c, KeepLine);
  }

  /** Lines that are all trimmed already are left as they are. */
  lemma TrimLinesOfAllTrimmed(lines: seq<string>)
    requires forall i | 0 <= i < |lines| :: IsTrimmed(lines[i])
    ensures TrimLines(lines) == lines
  {
    forall i | 0 <= i < |lines|
      ensures TrimLines(lines)[i] == lines[i]
    {
      TrimOfTrimmed(lines[i]);
    }
  }

  /** Lines that are all trimmed already are filtered as they are. */
  lemma KeepTasksOfTrimmed(lines: seq<string>)
    requires forall i | 0 <= i < |lines| :: IsTrimmed(lines[i])
    ensures KeepTasks(lines) == Filter(lines, KeepLine)
  {
    TrimLinesOfAllTrimmed(lines);
  }

  /** Two task lines and a trailing sentinel, all separator-free and trimmed,
      give the two tasks. */
  lemma TwoTasksThenSentinel(a: string, b: string)
    requires '\n' !in a && '\n' !in b
    requires IsTrimmed(a) && KeepLine(a) && IsTrimmed(b) && KeepLine(b)
    ensures ExtractTasks(a + "\n" + b + "\n" + NoTasksSentinel) == [a, b]
  {
    SentinelFacts();
    TwoTasksThenDropped(a, b, NoTasksSentinel);
  }

  /** Two task lines and a trimmed non-task line, all separator-free, give
      the two tasks. */
  lemma TwoTasksThenDropped(a: string, b: string, c: string)
    requires '\n' !in a && '\n' !in b && '\n' !in c
    requires IsTrimmed(a) && KeepLine(a) && IsTrimmed(b) && KeepLine(b)
    requires IsTrimmed(c) && !KeepLine(c)
    ensures ExtractTasks(a + "\n" + b + "\n" + c) == [a, b]
  {
    SplitThreeLines(a, b, c);
    KeepTwoThenDropped(a, b, c);
  }

  /** "Buy milk", "Call Alice" and the sentinel on three lines give the two
      tasks. */
  lemma ExtractExample()
    ensures ExtractTasks("Buy milk\nCall Alice\nNo tasks found.") == ["Buy milk", "Call Alice"]
  {
    var a, b := "Buy milk", "Call Alice";
    ExamplePieces(a, b);
    TwoTasksThenSentinel(a, b);
  }

  /** The two example tasks are plain trimmed lines and join into the
      example reply. */
  lemma ExamplePieces(a: string, b: string)
    requires a == "Buy milk" && b == "Call Alice"
    ensures '\n' !in a && '\n' !in b
    ensures IsTrimmed(a) && KeepLine(a) && IsTrimmed(b) && KeepLine(b)
    ensures a + "\n" + b + "\n" + NoTasksSentinel == "Buy milk\nCall Alice\nNo tasks found."
  {
  }

  /** The sentinel test is exact: a different capitalisation is a task. */
  lemma SentinelCaseVariantKept()
    ensures ExtractTasks("no tasks found.") == ["no tasks found."]
  {
    SingleTask("no tasks found.");
  }

  /** A trimmed keepable reply without line breaks is one task. */
  lemma SingleTask(v: string)
    requires '\n' !in v && IsTrimmed(v) && KeepLine(v)
    ensures ExtractTasks(v) == [v]
  {
    SplitOfPlain(v, '\n');
    KeepTasksOfTrimmed([v]);
    assert [v][1..] == [];
  }

  // ---------------------------------------------------------------------------
  // The POST handler
  // ---------------------------------------------------------------------------

  /** `POST /api/analyze` given the environment key, the `Authorization`
      header, the parsed body's `text` field and what the completion call would
      do. 401 comes before any body check, 400 before any model call, and
      anything thrown afterwards is a 500 carrying the error message. */
  function Analyze(env: Option<string>, authorization: Option<string>,
                   body: Body<Option<string>>, upstream: Upstream<Option<string>>)
    : (r: RouteResult<ChatCall, seq<string>>)
    ensures KnownStatus(r.response)
    ensures ResolveApiKey(env, authorization).None? <==> r.response == Failure(401, MissingKeyMessage)
    ensures ResolveApiKey(env, authorization).None? ==> r.call.None?
    ensures ResolveApiKey(env, authorization).Some? && body.Parsed? && !IsSet(body.value) ==>
              r.response == Failure(400, "No text provided") && r.call.None?
    ensures r.response.Failure? && r.response.status == 500 ==> StartsWith(r.response.error, ErrorPrefix)
    ensures r.call.Some? ==>
              && body.Parsed? && IsSet(body.value)
              && r.call.value == ChatCall(Model, SystemPrompt, "Extract tasks from: \"" + body.value.value + "\"",
                                          ResolveApiKey(env, authorization).value)
    ensures r.call.Some? <==>
              ResolveApiKey(env, authorization).Some? && body.Parsed? && IsSet(body.value)
    ensures ResolveApiKey(env, authorization).Some? && body.Malformed? ==>
              r.response == Failure(500, ErrorPrefix + body.message) && r.call.None?
    ensures r.call.Some? && upstream.Threw? ==> r.response == Failure(500, ErrorPrefix + upstream.message)
    ensures r.response.Success? <==> r.call.Some? && upstream.Returned?
    ensures r.response.Success? ==> r.response.value == ExtractTasks(ReplyText(upstream.value))
  {
    match ResolveApiKey(env, authorization)
    case None => RouteResult(Failure(401, MissingKeyMessage), None)
    case Some(key) =>
      match body
      case Malformed(m) => RouteResult(Failure(500, ErrorPrefix + m), None)
      case Parsed(text) =>
        if !IsSet(text) then RouteResult(Failure(400, "No text provided"), None)
        else
          var call := ChatCall(Model, SystemPrompt, "Extract tasks from: \"" + text.value + "\"", key);
          match upstream
          case Threw(m) => RouteResult(Failure(500, ErrorPrefix + m), Some(call))
          case Returned(content) => RouteResult(Success(ExtractTasks(ReplyText(content))), Some(call))
  }

  /** With no usable credential and no text the answer is 401, not 400. */
  lemma CredentialCheckedBeforeText(env: Option<string>, authorization: Option<string>,
                                    upstream: Upstream<Option<string>>)
    requires !IsSet(env)
    requires authorization.None? || !StartsWith(authorization.value, BearerPrefix)
    ensures Analyze(env, authorization, Parsed(None), upstream).response.status == 401
  {
  }
}
