/** The todo store (lib/todos.ts): a sorted read of the `todos` key, an add
    that reuses an open todo with the same content ignoring case, a toggle
    and a delete, each a full read-modify-write of the collection. */
module Todos {
  import opened Wrappers
  import opened Text
  import opened Collections
  import opened Storage

  datatype Todo = Todo(id: string, content: string, completed: bool, timestamp: int)

  /** The key of `getTodos`' comparator: incomplete (0) before completed (1),
      then larger timestamps first. */
  function TodoRank(t: Todo): Rank {
    Rank(if t.completed then 1 else 0, -t.timestamp)
  }

  /** Every incomplete todo precedes every completed one, and timestamps do
      not increase within each group. */
  ghost predicate ListedOrder(s: seq<Todo>) {
    && (forall i, j | 0 <= i < j < |s| :: !s[i].completed || s[j].completed)
    && (forall i, j | 0 <= i < j < |s| && s[i].completed == s[j].completed ::
          s[i].timestamp >= s[j].timestamp)
  }

  /** `getTodos()`: the stored todos in listing order; empty without a window,
      without a stored value, or when the value does not parse. */
  function GetTodos(slot: Slot<Todo>): (r: seq<Todo>)
    ensures multiset(r) == multiset(Load(slot))
    ensures ListedOrder(r)
    ensures !slot.hasWindow || !slot.blob.Present? ==> r == []
  {
    var r := Sort(Load(slot), TodoRank);
    assert SortedBy(r, TodoRank);
    r
  }

  // ---------------------------------------------------------------------------
  // addTodo
  // ---------------------------------------------------------------------------

  /** An incomplete todo whose content equals `content` ignoring case. */
  predicate IsOpenMatch(t: Todo, content: string) {
    !t.completed && SameIgnoringCase(t.content, content)
  }

  predicate HasOpenMatch(s: seq<Todo>, content: string) {
    exists t :: t in s && IsOpenMatch(t, content)
  }

  /** `s[k]` is the first open match of `content` in `s`. */
  predicate FirstOpenMatchAt(s: seq<Todo>, content: string, k: int) {
    0 <= k < |s| && IsOpenMatch(s[k], content)
    && forall j | 0 <= j < k :: !IsOpenMatch(s[j], content)
  }

  datatype Added = Added(todo: Todo, slot: Slot<Todo>)

  /** `addTodo(content)` with the fresh id and the current time supplied. An
      open match is returned as it is and nothing is written; otherwise a new
      incomplete todo with the content verbatim goes in front of the listing. */
  function AddTodo(slot: Slot<Todo>, content: string, id: string, now: int): (r: Added)
    ensures HasOpenMatch(GetTodos(slot), content) ==>
              r.slot == slot && exists k :: FirstOpenMatchAt(GetTodos(slot), content, k) && r.todo == GetTodos(slot)[k]
    ensures !HasOpenMatch(GetTodos(slot), content) ==>
              r.todo == Todo(id, content, false, now)
    ensures !HasOpenMatch(GetTodos(slot), content) && slot.hasWindow ==>
              r.slot.events == slot.events + 1 && Load(r.slot) == [r.todo] + GetTodos(slot)
    ensures !slot.hasWindow ==> r.slot == slot
  {
    var todos := GetTodos(slot);
    match FindIndex(todos, t => IsOpenMatch(t, content))
    case Some(k) =>
      assert FirstOpenMatchAt(todos, content, k);
      Added(todos[k], slot)
    case None =>
      var t := Todo(id, content, false, now);
      Added(t, Save(slot, [t] + todos))
  }

  /** After `addTodo(content)` an open todo matches `content`. */
  lemma AddTodoCovers(slot: Slot<Todo>, content: string, id: string, now: int)
    requires slot.hasWindow
    ensures HasOpenMatch(GetTodos(AddTodo(slot, content, id, now).slot), content)
  {
    var r := AddTodo(slot, content, id, now);
    if !HasOpenMatch(GetTodos(slot), content) {
      assert r.todo in multiset(GetTodos(r.slot)) by {
        assert Load(r.slot)[0] == r.todo;
      }
      assert IsOpenMatch(r.todo, content);
    }
  }

  /** `addTodo` never closes or removes an open todo: what had an open match
      still has one. */
  lemma AddTodoKeepsOpen(slot: Slot<Todo>, content: string, id: string, now: int, other: string)
    requires HasOpenMatch(GetTodos(slot), other)
    ensures HasOpenMatch(GetTodos(AddTodo(slot, content, id, now).slot), other)
  {
    var r := AddTodo(slot, content, id, now);
    if slot.hasWindow && !HasOpenMatch(GetTodos(slot), content) {
      var t :| t in GetTodos(slot) && IsOpenMatch(t, other);
      assert t in Load(r.slot);
      assert t in multiset(GetTodos(r.slot));
    }
  }

  /** `addTodo` never loses a stored todo: what was there is still there. */
  lemma AddTodoKeepsStored(slot: Slot<Todo>, content: string, id: string, now: int)
    ensures multiset(Load(slot)) <= multiset(Load(AddTodo(slot, content, id, now).slot))
  {
    var r := AddTodo(slot, content, id, now);
    if slot.hasWindow && !HasOpenMatch(GetTodos(slot), content) {
      assert multiset(Load(r.slot)) == multiset{r.todo} + multiset(GetTodos(slot));
    }
  }

  /** `addTodo` stores at most one more todo. */
  lemma AddTodoGrowth(slot: Slot<Todo>, content: string, id: string, now: int)
    ensures |Load(AddTodo(slot, content, id, now).slot)| <= |Load(slot)| + 1
  {
    var r := AddTodo(slot, content, id, now);
    assert |GetTodos(slot)| == |multiset(Load(slot))|;
  }

  /** No two incomplete todos have the same content ignoring case, and no
      incomplete todo is stored twice. */
  ghost predicate UniqueOpen(m: multiset<Todo>) {
    forall a, b | a in m && b in m && !a.completed && !b.completed
                  && SameIgnoringCase(a.content, b.content) :: a == b && m[a] == 1
  }

  /** Adding a todo keeps incomplete todos unique ignoring case. */
  lemma AddTodoKeepsUnique(slot: Slot<Todo>, content: string, id: string, now: int)
    requires UniqueOpen(multiset(Load(slot)))
    ensures UniqueOpen(multiset(Load(AddTodo(slot, content, id, now).slot)))
  {
    var todos := GetTodos(slot);
    var r := AddTodo(slot, content, id, now);
    if slot.hasWindow && !HasOpenMatch(todos, content) {
      var t := r.todo;
      var old_ := multiset(Load(slot));
      var m := multiset(Load(r.slot));
      assert m == old_ + multiset{t};
      forall x | x in old_
        ensures !IsOpenMatch(x, content)
      {
        assert x in multiset(todos);
        assert x in todos;
      }
      assert IsOpenMatch(t, content);
      forall a, b | a in m && b in m && !a.completed && !b.completed
                    && SameIgnoringCase(a.content, b.content)
        ensures a == b && m[a] == 1
      {
        if a != t && b != t {
          assert a in old_ && b in old_;
        }
      }
    }
  }

  /** Adding the same content twice, ignoring case, while the first result is
      still open yields the same todo and writes nothing the second time. */
  lemma AddTodoTwice(slot: Slot<Todo>, c1: string, c2: string,
                     id1: string, now1: int, id2: string, now2: int)
    requires slot.hasWindow
    requires SameIgnoringCase(c1, c2)
    ensures var r1 := AddTodo(slot, c1, id1, now1);
            var r2 := AddTodo(r1.slot, c2, id2, now2);
            r2.todo == r1.todo && r2.slot == r1.slot
  {
    if HasOpenMatch(GetTodos(slot), c1) {
      AddTodoTwiceExisting(slot, c1, c2, id1, now1, id2, now2);
    } else {
      AddTodoTwiceFresh(slot, c1, c2, id1, now1, id2, now2);
    }
  }

  /** The second add finds the same first open match as the first. */
  lemma AddTodoTwiceExisting(slot: Slot<Todo>, c1: string, c2: string,
                             id1: string, now1: int, id2: string, now2: int)
    requires SameIgnoringCase(c1, c2) && HasOpenMatch(GetTodos(slot), c1)
    ensures var r1 := AddTodo(slot, c1, id1, now1);
            var r2 := AddTodo(r1.slot, c2, id2, now2);
            r2.todo == r1.todo && r2.slot == r1.slot
  {
    var todos := GetTodos(slot);
    var r1 := AddTodo(slot, c1, id1, now1);
    var r2 := AddTodo(r1.slot, c2, id2, now2);
    var t :| t in todos && IsOpenMatch(t, c1);
    assert IsOpenMatch(t, c2);
    var k :| FirstOpenMatchAt(todos, c1, k) && r1.todo == todos[k];
    var k2 :| FirstOpenMatchAt(todos, c2, k2) && r2.todo == todos[k2];
    assert k == k2;
  }

  /** The second add finds the todo the first one created, which is the only
      open match in the new listing. */
  lemma AddTodoTwiceFresh(slot: Slot<Todo>, c1: string, c2: string,
                          id1: string, now1: int, id2: string, now2: int)
    requires slot.hasWindow
    requires SameIgnoringCase(c1, c2) && !HasOpenMatch(GetTodos(slot), c1)
    ensures var r1 := AddTodo(slot, c1, id1, now1);
            var r2 := AddTodo(r1.slot, c2, id2, now2);
            r2.todo == r1.todo && r2.slot == r1.slot
  {
    var todos := GetTodos(slot);
    var r1 := AddTodo(slot, c1, id1, now1);
    var after := GetTodos(r1.slot);
    var r2 := AddTodo(r1.slot, c2, id2, now2);
    var t := r1.todo;
    assert t in multiset(Load(r1.slot));
    assert t in after by { assert t in multiset(after); }
    assert IsOpenMatch(t, c2);
    var k2 :| FirstOpenMatchAt(after, c2, k2) && r2.todo == after[k2];
    assert after[k2] == t by {
      var u := after[k2];
      assert u in multiset(Load(r1.slot));
      if u != t {
        assert u in multiset(todos);
        assert u in todos && IsOpenMatch(u, c1);
      }
    }
  }

  // ---------------------------------------------------------------------------
  // toggleTodo
  // ---------------------------------------------------------------------------

  /** `s[k]` is the first todo of `s` carrying `id`. */
  predicate FirstWithId(s: seq<Todo>, id: string, k: int) {
    0 <= k < |s| && s[k].id == id && forall j | 0 <= j < k :: s[j].id != id
  }

  /** `after` is `before` with only the completion flag at `k` flipped. */
  predicate FlippedOnlyAt(before: seq<Todo>, after: seq<Todo>, k: int) {
    && |after| == |before| && 0 <= k < |before|
    && after[k] == before[k].(completed := !before[k].completed)
    && forall j | 0 <= j < |before| && j != k :: after[j] == before[j]
  }

  /** `toggleTodo(id)`: flips the first todo with that id and writes the
      listing; an unknown id writes nothing and dispatches no event. */
  function ToggleTodo(slot: Slot<Todo>, id: string): (r: Slot<Todo>)
    ensures (forall j | 0 <= j < |GetTodos(slot)| :: GetTodos(slot)[j].id != id) ==> r == slot
    ensures forall k | FirstWithId(GetTodos(slot), id, k) ::
              r.events == slot.events + 1 && FlippedOnlyAt(GetTodos(slot), Load(r), k)
  {
    var todos := GetTodos(slot);
    match FindIndex(todos, (t: Todo) => t.id == id)
    case None => slot
    case Some(k) =>
      assert FirstWithId(todos, id, k);
      assert forall k' | FirstWithId(todos, id, k') :: k' == k;
      Save(slot, todos[k := todos[k].(completed := !todos[k].completed)])
  }

  /** Toggling can break the uniqueness `addTodo` keeps: reopening a
      completed todo whose content matches an open one. */
  lemma ToggleCanReopenDuplicate()
    ensures exists slot: Slot<Todo>, id ::
              UniqueOpen(multiset(Load(slot))) && !UniqueOpen(multiset(Load(ToggleTodo(slot, id))))
  {
    var slot := ReopenExample();
    ReopenExampleBefore();
    ReopenExampleAfter();
    assert UniqueOpen(multiset(Load(slot))) && !UniqueOpen(multiset(Load(ToggleTodo(slot, "b"))));
  }

  /** An open "Buy" and a completed "buy". */
  function ReopenExample(): Slot<Todo> {
    Slot(true, Present([Todo("a", "Buy", false, 2), Todo("b", "buy", true, 1)]), 0)
  }

  lemma ReopenExampleBefore()
    ensures UniqueOpen(multiset(Load(ReopenExample())))
  {
    var a := Todo("a", "Buy", false, 2);
    var b := Todo("b", "buy", true, 1);
    var m := multiset(Load(ReopenExample()));
    assert m == multiset{a, b};
    forall x, y | x in m && y in m && !x.completed && !y.completed
                  && SameIgnoringCase(x.content, y.content)
      ensures x == y && m[x] == 1
    {
      assert x == a && y == a;
    }
  }

  lemma ReopenExampleListing()
    ensures GetTodos(ReopenExample()) == [Todo("a", "Buy", false, 2), Todo("b", "buy", true, 1)]
  {
    var a := Todo("a", "Buy", false, 2);
    var b := Todo("b", "buy", true, 1);
    assert Load(ReopenExample()) == [a, b];
    assert [a, b][1..] == [b];
    assert Sort([b], TodoRank) == [b] by {
      assert [b][1..] == [];
    }
    assert Insert(a, [b], TodoRank) == [a, b];
  }

  lemma ReopenExampleAfter()
    ensures !UniqueOpen(multiset(Load(ToggleTodo(ReopenExample(), "b"))))
  {
    var a := Todo("a", "Buy", false, 2);
    var b' := Todo("b", "buy", false, 1);
    ReopenExampleToggled();
    CaseTwins();
    var after := Load(ToggleTodo(ReopenExample(), "b"));
    assert a in multiset(after) && b' in multiset(after);
  }

  /** Toggling "b" in the example reopens it in place. */
  lemma ReopenExampleToggled()
    ensures Load(ToggleTodo(ReopenExample(), "b")) == [Todo("a", "Buy", false, 2), Todo("b", "buy", false, 1)]
  {
    var a := Todo("a", "Buy", false, 2);
    var b := Todo("b", "buy", true, 1);
    ReopenExampleListing();
    assert FirstWithId([a, b], "b", 1);
    var after := Load(ToggleTodo(ReopenExample(), "b"));
    assert FlippedOnlyAt([a, b], after, 1);
  }

  /** The example's two contents differ only in case. */
  lemma CaseTwins()
    ensures SameIgnoringCase("Buy", "buy")
  {
    assert Lower("Buy") == "buy";
    assert Lower("buy") == "buy";
  }

  /** After adding content with a fresh id and no open match, the new todo is
      the only one with that id and the only open match of the content. */
  lemma FreshAddListing(slot: Slot<Todo>, c: string, id: string, now: int)
    requires slot.hasWindow
    requires !HasOpenMatch(GetTodos(slot), c)
    requires forall t | t in Load(slot) :: t.id != id
    ensures var l := GetTodos(AddTodo(slot, c, id, now).slot);
            && |l| == |Load(slot)| + 1
            && exists k :: FirstWithId(l, id, k) && l[k] == Todo(id, c, false, now)
                           && forall j | 0 <= j < |l| && j != k :: !IsOpenMatch(l[j], c)
  {
    var todos := GetTodos(slot);
    var r := AddTodo(slot, c, id, now);
    var t := r.todo;
    var l := GetTodos(r.slot);
    var hasId := (u: Todo) => u.id == id;
    assert Load(r.slot) == [t] + todos;
    assert multiset(l) == multiset(todos) + multiset{t};
    assert |l| == |Load(slot)| + 1 by {
      assert |multiset(l)| == |multiset(todos)| + 1;
      assert |multiset(todos)| == |multiset(Load(slot))|;
    }
    assert t in l by { assert t in multiset(l); }
    var k :| 0 <= k < |l| && l[k] == t;
    assert Count(todos, hasId) == 0 by {
      CountPositive(todos, hasId);
      forall u | u in todos
        ensures !hasId(u)
      {
        assert u in multiset(todos);
      }
    }
    assert Count(l, hasId) == 1 by {
      CountSort([t] + todos, TodoRank, hasId);
      CountCons(t, todos, hasId);
    }
    forall j | 0 <= j < |l| && j != k
      ensures l[j].id != id
    {
      if l[j].id == id {
        if j < k { CountAtLeastTwo(l, hasId, j, k); } else { CountAtLeastTwo(l, hasId, k, j); }
      }
    }
    forall j | 0 <= j < |l| && j != k
      ensures !IsOpenMatch(l[j], c)
    {
      assert l[j] in multiset(l);
      assert l[j] != t;
      assert l[j] in multiset(todos);
      assert l[j] in todos;
    }
    assert FirstWithId(l, id, k);
  }

  /** Completing the only open match of `c` leaves no open match, and the
      completed todo is still listed. */
  lemma ToggleClosesOnlyMatch(slot: Slot<Todo>, id: string, c: string, k: int, t: Todo)
    requires FirstWithId(GetTodos(slot), id, k) && GetTodos(slot)[k] == t && !t.completed
    requires forall j | 0 <= j < |GetTodos(slot)| && j != k :: !IsOpenMatch(GetTodos(slot)[j], c)
    ensures var after := GetTodos(ToggleTodo(slot, id));
            && !HasOpenMatch(after, c)
            && t.(completed := true) in after
            && |after| == |GetTodos(slot)|
  {
    var l1 := GetTodos(slot);
    var s2 := ToggleTodo(slot, id);
    var l2 := Load(s2);
    assert FlippedOnlyAt(l1, l2, k);
    var after := GetTodos(s2);
    forall u | u in after
      ensures !IsOpenMatch(u, c)
    {
      assert u in multiset(l2);
      var j :| 0 <= j < |l2| && l2[j] == u;
    }
    assert l2[k] in after by { assert l2[k] in multiset(after); }
    assert |after| == |l2| by { assert |multiset(after)| == |multiset(l2)|; }
  }

  /** Adding, completing, then adding the same content again stores a second
      todo: completed todos are not matched. */
  lemma AddToggleAdd(slot: Slot<Todo>, c: string, id1: string, now1: int, id2: string, now2: int)
    requires slot.hasWindow
    requires !HasOpenMatch(GetTodos(slot), c)
    requires forall t | t in Load(slot) :: t.id != id1
    ensures var r1 := AddTodo(slot, c, id1, now1);
            var s2 := ToggleTodo(r1.slot, id1);
            var r3 := AddTodo(s2, c, id2, now2);
            && r3.todo == Todo(id2, c, false, now2)
            && r3.todo in Load(r3.slot)
            && Todo(id1, c, true, now1) in Load(r3.slot)
            && |Load(r3.slot)| == |Load(slot)| + 2
  {
    var r1 := AddTodo(slot, c, id1, now1);
    var l1 := GetTodos(r1.slot);
    FreshAddListing(slot, c, id1, now1);
    var k :| FirstWithId(l1, id1, k) && l1[k] == Todo(id1, c, false, now1)
             && forall j | 0 <= j < |l1| && j != k :: !IsOpenMatch(l1[j], c);
    ToggleClosesOnlyMatch(r1.slot, id1, c, k, l1[k]);
    var s2 := ToggleTodo(r1.slot, id1);
    var r3 := AddTodo(s2, c, id2, now2);
    assert Load(r3.slot) == [r3.todo] + GetTodos(s2);
  }

  // ---------------------------------------------------------------------------
  // deleteTodo
  // ---------------------------------------------------------------------------

  /** The todos `deleteTodo(id)` keeps. */
  function OtherTodo(id: string): Todo -> bool {
    (t: Todo) => t.id != id
  }

  /** `deleteTodo(id)`: writes the listing without any todo carrying `id`,
      and dispatches an event whether or not one was removed. Every other
      todo of the listing survives, once per occurrence and in listing order. */
  function DeleteTodo(slot: Slot<Todo>, id: string): (r: Slot<Todo>)
    ensures slot.hasWindow ==> r.events == slot.events + 1 && r.blob.Present?
    ensures !slot.hasWindow ==> r == slot
    ensures forall i | 0 <= i < |Load(r)| :: Load(r)[i].id != id && Load(r)[i] in GetTodos(slot)
    ensures slot.hasWindow ==> forall t | t in GetTodos(slot) && t.id != id :: t in Load(r)
    ensures slot.hasWindow ==> SubsequenceOf(Load(r), GetTodos(slot))
    ensures slot.hasWindow ==> |Load(r)| == Count(GetTodos(slot), OtherTodo(id))
    ensures ListedOrder(Load(r))
  {
    var kept := Filter(GetTodos(slot), OtherTodo(id));
    FilterKeepsOrder(GetTodos(slot), OtherTodo(id), TodoRank);
    FilterSubsequence(GetTodos(slot), OtherTodo(id));
    Save(slot, kept)
  }

  /** Deleting twice leaves the same collection as deleting once; only the
      event count grows. */
  lemma DeleteTodoIdempotent(slot: Slot<Todo>, id: string)
    ensures DeleteTodo(DeleteTodo(slot, id), id).blob == DeleteTodo(slot, id).blob
    ensures slot.hasWindow ==> DeleteTodo(DeleteTodo(slot, id), id).events == slot.events + 2
  {
    var p := OtherTodo(id);
    var once := DeleteTodo(slot, id);
    if slot.hasWindow {
      var kept := Filter(GetTodos(slot), p);
      assert Load(once) == kept;
      FilterKeepsOrder(GetTodos(slot), p, TodoRank);
      SortOfSorted(kept, TodoRank);
      assert GetTodos(once) == kept;
      FilterIdempotent(GetTodos(slot), p);
    }
  }
}
