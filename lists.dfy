/** The pure list computations behind each mutation of the to-do hook: the spread
    append of addTodo, the `map` of toggleTodo and editTodo and the `filter` of
    deleteTodo and clearCompleted. */
module TodoLists {
  import opened Todos

  /** `r` is `s` with some elements left out and the rest in their original order. */
  predicate IsSubsequence<T(==)>(r: seq<T>, s: seq<T>)
    decreases |s|
  {
    if r == [] then true
    else if s == [] then false
    else (r[0] == s[0] && IsSubsequence(r[1..], s[1..])) || IsSubsequence(r, s[1..])
  }

  /** Array.prototype.filter: the elements of `s` that `keep` accepts, in order,
      each as often as it occurs in `s`. */
  function Filter<T(==,!new)>(s: seq<T>, keep: T -> bool): (r: seq<T>)
    ensures |r| <= |s|
    ensures forall i :: 0 <= i < |r| ==> keep(r[i])
    ensures forall x :: x in r <==> x in s && keep(x)
    ensures forall x :: multiset(r)[x] == if keep(x) then multiset(s)[x] else 0
    ensures IsSubsequence(r, s)
  {
    if s == [] then []
    else
      assert s == [s[0]] + s[1..];
      var rest := Filter(s[1..], keep);
      if keep(s[0]) then
        assert ([s[0]] + rest)[1..] == rest;
        [s[0]] + rest
      else
        rest
  }

  /** Filtering a sequence whose every element is kept returns it unchanged. */
  lemma {:induction false} FilterAllKept<T(!new)>(s: seq<T>, keep: T -> bool)
    requires forall i :: 0 <= i < |s| ==> keep(s[i])
    ensures Filter(s, keep) == s
  {
    if s != [] {
      FilterAllKept(s[1..], keep);
    }
  }

  /** Filtering twice by the same predicate equals filtering once. */
  lemma FilterIdempotent<T(!new)>(s: seq<T>, keep: T -> bool)
    ensures Filter(Filter(s, keep), keep) == Filter(s, keep)
  {
    FilterAllKept(Filter(s, keep), keep);
  }

  lemma {:induction false} SubsequenceMembers<T>(r: seq<T>, s: seq<T>)
    requires IsSubsequence(r, s)
    ensures forall x :: x in r ==> x in s
    decreases |s|
  {
    if r != [] {
      if r[0] == s[0] && IsSubsequence(r[1..], s[1..]) {
        SubsequenceMembers(r[1..], s[1..]);
        assert forall x :: x in r ==> x == r[0] || x in r[1..];
      } else {
        SubsequenceMembers(r, s[1..]);
      }
    }
  }

  /** Leaving entries out keeps ids distinct. */
  lemma {:induction false} SubsequenceKeepsUniqueIds(r: seq<Todo>, s: seq<Todo>)
    requires IsSubsequence(r, s) && UniqueIds(s)
    ensures UniqueIds(r)
    decreases |s|
  {
    if r != [] {
      assert UniqueIds(s[1..]);
      if r[0] == s[0] && IsSubsequence(r[1..], s[1..]) {
        SubsequenceKeepsUniqueIds(r[1..], s[1..]);
        SubsequenceMembers(r[1..], s[1..]);
        forall j | 0 < j < |r| ensures r[0].id != r[j].id {
          assert r[j] in r[1..];
          var k :| 0 <= k < |s[1..]| && s[1..][k] == r[j];
          assert s[k + 1] == r[j];
        }
      } else {
        SubsequenceKeepsUniqueIds(r, s[1..]);
      }
    }
  }

  // ---------------------------------------------------------------- addTodo

  /** The list with one new entry appended at the end, built from `id`, the
      already trimmed `text` and the creation time. */
  function AddList(todos: seq<Todo>, id: string, text: string, createdAt: nat): (r: seq<Todo>)
    ensures |r| == |todos| + 1 && r[..|todos|] == todos
    ensures r[|todos|].id == id && r[|todos|].text == text && !r[|todos|].completed
    ensures r[|todos|].createdAt == createdAt && r[|todos|].completedAt == None
  {
    todos + [Todo(id, text, false, createdAt, None)]
  }

  /** Appending a trimmed, non-empty text keeps the list well formed. */
  lemma AddKeepsWellFormed(todos: seq<Todo>, id: string, text: string, createdAt: nat)
    requires WellFormed(todos) && text != [] && JsText.Trim(text) == text
    ensures WellFormed(AddList(todos, id, text, createdAt))
  {
  }

  /** With an id no entry carries, appending keeps ids distinct. */
  lemma AddKeepsUniqueIds(todos: seq<Todo>, id: string, text: string, createdAt: nat)
    requires UniqueIds(todos) && FreshId(todos, id)
    ensures UniqueIds(AddList(todos, id, text, createdAt))
  {
  }

  // ------------------------------------------------------------- toggleTodo

  /** Flips `completed`; sets `completedAt` to `now` when the entry becomes
      completed, clears it otherwise. */
  function ToggleEntry(t: Todo, now: nat): (r: Todo) {
    t.(completed := !t.completed, completedAt := if !t.completed then Some(now) else None)
  }

  /** Every entry whose id is `id` toggled, every other entry as it was. */
  function ToggleList(todos: seq<Todo>, id: string, now: nat): (r: seq<Todo>)
    ensures |r| == |todos|
    ensures forall i :: 0 <= i < |r| && todos[i].id != id ==> r[i] == todos[i]
    ensures forall i :: 0 <= i < |r| && todos[i].id == id ==>
              r[i].id == id && r[i].text == todos[i].text && r[i].createdAt == todos[i].createdAt
              && r[i].completed == !todos[i].completed
              && r[i].completedAt == (if r[i].completed then Some(now) else None)
  {
    seq(|todos|, i requires 0 <= i < |todos| =>
      if todos[i].id == id then ToggleEntry(todos[i], now) else todos[i])
  }

  /** An id no entry carries leaves the list as it was. */
  lemma ToggleMissing(todos: seq<Todo>, id: string, now: nat)
    requires FreshId(todos, id)
    ensures ToggleList(todos, id, now) == todos
  {
  }

  /** Toggling twice restores every `completed` flag; a matching entry that started
      uncompleted has no `completedAt` again, one that started completed carries the
      second toggle's time; nothing else changes. */
  lemma ToggleTwice(todos: seq<Todo>, id: string, now1: nat, now2: nat)
    ensures var r := ToggleList(ToggleList(todos, id, now1), id, now2);
      |r| == |todos| &&
      (forall i :: 0 <= i < |r| ==> r[i].completed == todos[i].completed) &&
      (forall i :: 0 <= i < |r| && todos[i].id == id ==>
         r[i] == todos[i].(completedAt := if todos[i].completed then Some(now2) else None)) &&
      (forall i :: 0 <= i < |r| && todos[i].id != id ==> r[i] == todos[i])
  {
  }

  /** When every matching entry starts uncompleted and well formed, toggling twice
      gives back the very same list. */
  lemma ToggleTwiceRestores(todos: seq<Todo>, id: string, now1: nat, now2: nat)
    requires forall i :: 0 <= i < |todos| && todos[i].id == id ==>
               !todos[i].completed && todos[i].completedAt == None
    ensures ToggleList(ToggleList(todos, id, now1), id, now2) == todos
  {
  }

  lemma ToggleKeepsWellFormed(todos: seq<Todo>, id: string, now: nat)
    requires WellFormed(todos)
    ensures WellFormed(ToggleList(todos, id, now))
  {
  }

  lemma ToggleKeepsUniqueIds(todos: seq<Todo>, id: string, now: nat)
    requires UniqueIds(todos)
    ensures UniqueIds(ToggleList(todos, id, now))
  {
  }

  // ------------------------------------------------------------- deleteTodo

  /** Accepts the entries whose id differs from `id`. */
  function KeepUnlessId(id: string): (keep: Todo -> bool) {
    (t: Todo) => t.id != id
  }

  /** The entries whose id differs from `id`, in their order. */
  function DeleteList(todos: seq<Todo>, id: string): (r: seq<Todo>)
    ensures forall i :: 0 <= i < |r| ==> r[i].id != id
    ensures forall x :: x in r <==> x in todos && x.id != id
    ensures forall x: Todo :: x.id != id ==> multiset(r)[x] == multiset(todos)[x]
    ensures IsSubsequence(r, todos)
  {
    Filter(todos, KeepUnlessId(id))
  }

  /** Deleting an id no entry carries leaves the list unchanged. */
  lemma DeleteMissing(todos: seq<Todo>, id: string)
    requires FreshId(todos, id)
    ensures DeleteList(todos, id) == todos
  {
    FilterAllKept(todos, KeepUnlessId(id));
  }

  /** Deleting twice equals deleting once. */
  lemma DeleteIdempotent(todos: seq<Todo>, id: string)
    ensures DeleteList(DeleteList(todos, id), id) == DeleteList(todos, id)
  {
    FilterIdempotent(todos, KeepUnlessId(id));
  }

  lemma DeleteKeepsWellFormed(todos: seq<Todo>, id: string)
    requires WellFormed(todos)
    ensures WellFormed(DeleteList(todos, id))
  {
  }

  lemma DeleteKeepsUniqueIds(todos: seq<Todo>, id: string)
    requires UniqueIds(todos)
    ensures UniqueIds(DeleteList(todos, id))
  {
    SubsequenceKeepsUniqueIds(DeleteList(todos, id), todos);
  }

  // --------------------------------------------------------------- editTodo

  /** Every entry whose id is `id` given the (trimmed) `text`, every other entry
      as it was. */
  function EditList(todos: seq<Todo>, id: string, text: string): (r: seq<Todo>)
    ensures |r| == |todos|
    ensures forall i :: 0 <= i < |r| && todos[i].id != id ==> r[i] == todos[i]
    ensures forall i :: 0 <= i < |r| && todos[i].id == id ==>
              r[i].text == text && r[i].id == id && r[i].completed == todos[i].completed
              && r[i].createdAt == todos[i].createdAt && r[i].completedAt == todos[i].completedAt
  {
    seq(|todos|, i requires 0 <= i < |todos| =>
      if todos[i].id == id then todos[i].(text := text) else todos[i])
  }

  /** An id no entry carries leaves the list as it was. */
  lemma EditMissing(todos: seq<Todo>, id: string, text: string)
    requires FreshId(todos, id)
    ensures EditList(todos, id, text) == todos
  {
  }

  /** Editing twice with the same text equals editing once. */
  lemma EditIdempotent(todos: seq<Todo>, id: string, text: string)
    ensures EditList(EditList(todos, id, text), id, text) == EditList(todos, id, text)
  {
  }

  lemma EditKeepsWellFormed(todos: seq<Todo>, id: string, text: string)
    requires WellFormed(todos) && text != [] && JsText.Trim(text) == text
    ensures WellFormed(EditList(todos, id, text))
  {
  }

  lemma EditKeepsUniqueIds(todos: seq<Todo>, id: string, text: string)
    requires UniqueIds(todos)
    ensures UniqueIds(EditList(todos, id, text))
  {
  }

  // --------------------------------------------------------- clearCompleted

  /** Accepts the entries not completed. */
  predicate IsActive(t: Todo) {
    !t.completed
  }

  /** The uncompleted entries, in their order. */
  function ClearCompletedList(todos: seq<Todo>): (r: seq<Todo>)
    ensures forall i :: 0 <= i < |r| ==> !r[i].completed
    ensures forall x :: x in r <==> x in todos && !x.completed
    ensures forall x: Todo :: !x.completed ==> multiset(r)[x] == multiset(todos)[x]
    ensures IsSubsequence(r, todos)
  {
    Filter(todos, IsActive)
  }

  /** Clearing twice equals clearing once. */
  lemma ClearCompletedIdempotent(todos: seq<Todo>)
    ensures ClearCompletedList(ClearCompletedList(todos)) == ClearCompletedList(todos)
  {
    FilterIdempotent(todos, IsActive);
  }

  /** A list without completed entries is left as it is. */
  lemma ClearCompletedNoneCompleted(todos: seq<Todo>)
    requires forall i :: 0 <= i < |todos| ==> !todos[i].completed
    ensures ClearCompletedList(todos) == todos
  {
    FilterAllKept(todos, IsActive);
  }

  lemma ClearCompletedKeepsWellFormed(todos: seq<Todo>)
    requires WellFormed(todos)
    ensures WellFormed(ClearCompletedList(todos))
  {
  }

  lemma ClearCompletedKeepsUniqueIds(todos: seq<Todo>)
    requires UniqueIds(todos)
    ensures UniqueIds(ClearCompletedList(todos))
  {
    SubsequenceKeepsUniqueIds(ClearCompletedList(todos), todos);
  }
}
