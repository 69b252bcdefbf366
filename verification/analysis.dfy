/** `analyzeText` (lib/analysis.ts): extract tasks through the selected
    provider and add each one to the todo store, in order; any failure is
    reduced to one generic message. */
module Analysis {
  import opened Wrappers
  import opened Text
  import opened Collections
  import opened Storage
  import opened Credentials
  import opened Todos
  import opened AiService
  import NotebookProvider

  const GenericError := "Failed to analyze text"

  /** The id and time the `k`-th `addTodo` call of a run receives. */
  datatype Stamp = Stamp(id: string, now: int)

  /** `items.forEach(addTodo)`: the `k`-th item is added with `stamps(next + k)`.
      Without a window nothing changes; the store grows by at most one todo
      per item; every item ends up with an open match, and open matches that
      existed before are kept. */
  function AddEach(slot: Slot<Todo>, items: seq<string>, stamps: nat -> Stamp, next: nat): (r: Slot<Todo>)
    ensures !slot.hasWindow ==> r == slot
    ensures |Load(r)| <= |Load(slot)| + |items|
    ensures slot.hasWindow ==> forall i | 0 <= i < |items| :: HasOpenMatch(GetTodos(r), items[i])
    ensures forall c | HasOpenMatch(GetTodos(slot), c) :: HasOpenMatch(GetTodos(r), c)
    decreases |items|
  {
    if |items| == 0 then slot
    else
      var stamp := stamps(next);
      var first := AddTodo(slot, items[0], stamp.id, stamp.now).slot;
      AddTodoGrowth(slot, items[0], stamp.id, stamp.now);
      assert slot.hasWindow ==> HasOpenMatch(GetTodos(first), items[0]) by {
        if slot.hasWindow {
          AddTodoCovers(slot, items[0], stamp.id, stamp.now);
        }
      }
      forall c | HasOpenMatch(GetTodos(slot), c)
        ensures HasOpenMatch(GetTodos(first), c)
      {
        AddTodoKeepsOpen(slot, items[0], stamp.id, stamp.now, c);
      }
      var r := AddEach(first, items[1..], stamps, next + 1);
      forall i | 0 <= i < |items| && slot.hasWindow
        ensures HasOpenMatch(GetTodos(r), items[i])
      {
        if i > 0 {
          assert items[i] == items[1..][i - 1];
        }
      }
      r
  }

  /** The fold never loses a stored todo, and it keeps incomplete todos
      unique ignoring case. */
  lemma {:induction false} AddEachKeeps(slot: Slot<Todo>, items: seq<string>, stamps: nat -> Stamp, next: nat)
    ensures multiset(Load(slot)) <= multiset(Load(AddEach(slot, items, stamps, next)))
    ensures UniqueOpen(multiset(Load(slot))) ==> UniqueOpen(multiset(Load(AddEach(slot, items, stamps, next))))
    decreases |items|
  {
    if |items| > 0 {
      var stamp := stamps(next);
      var first := AddTodo(slot, items[0], stamp.id, stamp.now).slot;
      AddTodoKeepsStored(slot, items[0], stamp.id, stamp.now);
      AddTodoKeepsUniqueIf(slot, items[0], stamp.id, stamp.now);
      AddEachKeeps(first, items[1..], stamps, next + 1);
      assert AddEach(slot, items, stamps, next) == AddEach(first, items[1..], stamps, next + 1);
    }
  }

  /** `AddTodoKeepsUnique` as an implication, for callers that do not know
      whether the store starts unique. */
  lemma AddTodoKeepsUniqueIf(slot: Slot<Todo>, content: string, id: string, now: int)
    ensures UniqueOpen(multiset(Load(slot))) ==> UniqueOpen(multiset(Load(AddTodo(slot, content, id, now).slot)))
  {
    if UniqueOpen(multiset(Load(slot))) {
      AddTodoKeepsUnique(slot, content, id, now);
    }
  }

  /** The test "is an open match of `c`", as a predicate value. */
  function OpenMatchOf(c: string): Todo -> bool {
    (t: Todo) => IsOpenMatch(t, c)
  }

  /** Starting from a store whose incomplete todos are unique ignoring case,
      every extracted item, wherever it sits in the list, ends with exactly
      one open match. */
  lemma EachItemOneOpenMatch(slot: Slot<Todo>, items: seq<string>, stamps: nat -> Stamp, i: nat)
    requires slot.hasWindow && UniqueOpen(multiset(Load(slot)))
    requires i < |items|
    ensures Count(GetTodos(AddEach(slot, items, stamps, 0)), OpenMatchOf(items[i])) == 1
  {
    var r := AddEach(slot, items, stamps, 0);
    AddEachKeeps(slot, items, stamps, 0);
    assert HasOpenMatch(GetTodos(r), items[i]);
    OnlyOneOpenMatch(GetTodos(r), items[i], OpenMatchOf(items[i]));
  }

  /** Two items that differ only in case, anywhere in the list, end with the
      same single open todo. */
  lemma CaseVariantsShareOneTodo(slot: Slot<Todo>, items: seq<string>, stamps: nat -> Stamp, i: nat, j: nat)
    requires slot.hasWindow && UniqueOpen(multiset(Load(slot)))
    requires i < |items| && j < |items| && SameIgnoringCase(items[i], items[j])
    ensures var listed := GetTodos(AddEach(slot, items, stamps, 0));
            && (exists t :: t in listed && IsOpenMatch(t, items[i]) && IsOpenMatch(t, items[j]))
            && Count(listed, OpenMatchOf(items[i])) == 1
            && Count(listed, OpenMatchOf(items[j])) == 1
  {
    var listed := GetTodos(AddEach(slot, items, stamps, 0));
    EachItemOneOpenMatch(slot, items, stamps, i);
    EachItemOneOpenMatch(slot, items, stamps, j);
    var t :| t in listed && IsOpenMatch(t, items[i]);
    assert IsOpenMatch(t, items[j]);
  }

  datatype Analyzed = Analyzed(error: Option<string>, todos: Slot<Todo>)

  /** `analyzeText(text)` with the provider kind, the server's outcome and the
      stamps for new todos supplied. */
  function AnalyzeText(kind: ProviderKind, text: string, outcome: FetchOutcome<seq<string>>,
                       slot: Slot<Todo>, stamps: nat -> Stamp): (r: Analyzed)
    ensures r.error.Some? <==> ProviderAnalyze(kind, text, outcome).Err?
    ensures r.error.Some? ==> r.error.value == GenericError && r.todos == slot
    ensures r.error.None? ==> r.todos == AddEach(slot, ProviderAnalyze(kind, text, outcome).value, stamps, 0)
  {
    match ProviderAnalyze(kind, text, outcome)
    case Ok(items) => Analyzed(None, AddEach(slot, items, stamps, 0))
    case Err(_) => Analyzed(Some(GenericError), slot)
  }

  /** The generic message drops the credential marker, so a caller cannot
      tell a missing key from any other analysis failure. */
  lemma FailureHidesMarker(text: string, slot: Slot<Todo>, stamps: nat -> Stamp)
    ensures var r := AnalyzeText(ServerApi, text, NotOk(Some(MissingKeyMessage)), slot, stamps);
            r.error.Some? && !Contains(r.error.value, CredentialMarker) && r.todos == slot
  {
    NotContainsByFirstChar(GenericError, CredentialMarker);
  }

  /** An empty extraction writes nothing and dispatches no event. */
  lemma EmptyListChangesNothing(kind: ProviderKind, text: string, slot: Slot<Todo>, stamps: nat -> Stamp)
    requires kind == ServerApi
    ensures AnalyzeText(kind, text, OkBody([]), slot, stamps) == Analyzed(None, slot)
  {
  }

  /** Two extracted items that differ only in case add at most one todo. */
  lemma CaseVariantsAddOne(slot: Slot<Todo>, a: string, b: string, stamps: nat -> Stamp)
    requires slot.hasWindow
    requires SameIgnoringCase(a, b)
    ensures |Load(AddEach(slot, [a, b], stamps, 0))| <= |Load(slot)| + 1
  {
    var s0, s1 := stamps(0), stamps(1);
    var first := AddTodo(slot, a, s0.id, s0.now).slot;
    AddTodoTwice(slot, a, b, s0.id, s0.now, s1.id, s1.now);
    AddTodoGrowth(slot, a, s0.id, s0.now);
    assert [a, b][1..] == [b];
    assert [b][1..] == [];
    assert AddEach(slot, [a, b], stamps, 0) == AddEach(first, [b], stamps, 1);
    assert AddEach(first, [b], stamps, 1) == AddEach(AddTodo(first, b, s1.id, s1.now).slot, [], stamps, 2);
  }

  /** An open placeholder task. */
  predicate IsOpenPlaceholder(t: Todo) {
    IsOpenMatch(t, NotebookProvider.PlaceholderTask)
  }

  /** With incomplete todos unique ignoring case, an open match is the only
      one. */
  lemma OnlyOneOpenMatch(s: seq<Todo>, c: string, p: Todo -> bool)
    requires UniqueOpen(multiset(s)) && HasOpenMatch(s, c)
    requires forall t :: p(t) == IsOpenMatch(t, c)
    ensures Count(s, p) == 1
  {
    var x :| x in s && IsOpenMatch(x, c);
    forall i | 0 <= i < |s| && p(s[i])
      ensures s[i] == x
    {
      assert s[i] in multiset(s) && x in multiset(s);
    }
    CountOfSingleKind(s, p, x);
  }

  /** A run with the offline provider is one `addTodo` of the placeholder. */
  lemma NotebookRunAddsPlaceholder(slot: Slot<Todo>, text: string, out: FetchOutcome<seq<string>>,
                                   stamps: nat -> Stamp)
    ensures var r := AnalyzeText(Notebook, text, out, slot, stamps);
            r == Analyzed(None, AddTodo(slot, NotebookProvider.PlaceholderTask, stamps(0).id, stamps(0).now).slot)
  {
    var task := NotebookProvider.PlaceholderTask;
    var added := AddTodo(slot, task, stamps(0).id, stamps(0).now).slot;
    assert [task][1..] == [];
    assert ProviderAnalyze(Notebook, text, out) == Ok([task]);
    assert AddEach(slot, [task], stamps, 0) == AddEach(added, [], stamps, 1);
  }

  /** With the offline provider, the first run leaves exactly one open
      placeholder todo and every later run changes nothing. */
  lemma NotebookRunsKeepOnePlaceholder(slot: Slot<Todo>, text1: string, text2: string,
                                       out1: FetchOutcome<seq<string>>, out2: FetchOutcome<seq<string>>,
                                       stamps1: nat -> Stamp, stamps2: nat -> Stamp)
    requires slot.hasWindow
    requires UniqueOpen(multiset(Load(slot)))
    ensures var r1 := AnalyzeText(Notebook, text1, out1, slot, stamps1);
            var r2 := AnalyzeText(Notebook, text2, out2, r1.todos, stamps2);
            && Count(GetTodos(r1.todos), IsOpenPlaceholder) == 1
            && r2.todos == r1.todos
  {
    var task := NotebookProvider.PlaceholderTask;
    var s1, s2 := stamps1(0), stamps2(0);
    var added := AddTodo(slot, task, s1.id, s1.now).slot;
    NotebookRunAddsPlaceholder(slot, text1, out1, stamps1);
    AddTodoCovers(slot, task, s1.id, s1.now);
    AddTodoKeepsUnique(slot, task, s1.id, s1.now);
    OnlyOneOpenMatch(GetTodos(added), task, IsOpenPlaceholder);
    NotebookRunAddsPlaceholder(added, text2, out2, stamps2);
  }
}
