# To-do list state layer

A model of the state layer of a single-screen mobile to-do application: the
`useTodos` hook in `hooks/use-async-storage.ts`. The hook keeps an ordered list of
to-do entries in memory, a loading flag and an error slot, and mirrors the whole list
into one durable key-value slot on the device. It loads the slot once, and offers
five mutations (add, toggle, delete, edit, clear completed). Each mutation computes
the new list with a pure `map`, `filter` or spread, applies it optimistically, writes
it, and on a failed write restores the previous list, records the error and rejects.

The project has four modules:

- `JsText` (`text.dfy`): `String.prototype.trim` as ECMAScript defines it. It strips
  the WhiteSpace and LineTerminator code points from both ends.
- `Todos` (`todo.dfy`): the `Todo` record and the list invariants. These are: a
  `completedAt` is present exactly while the entry is completed, texts are trimmed
  and non-empty, and ids are distinct.
- `TodoLists` (`lists.dfy`): the pure list computations of the five mutations, a
  generic `Filter` (the `Array.prototype.filter` the hook uses), and lemmas about them.
- `TodoStorage` (`store.dfy`): the class `TodoStore` with fields `todos`, `loading`,
  `error` and `stored` (the durable slot). It has the load, save and mutation methods.
  Each mutation is proved against the pure list function. Each also keeps three
  invariants: the slot matches the list, the entries are well formed, and the ids
  are distinct (for `AddTodo`, only when the new id is fresh).

Storage calls are parameters. A `StorageCall` says whether the read or write
succeeds, or rejects with an Error or with some other value. The clock is replaced
by parameters too: the new id, `createdAt` and the completion time.

The model follows the code as written; in particular:

- A failed or unparsable load leaves the list as it was before the load. It is not
  reset to empty. At mount time the previous list is the empty initial list.
- Toggle, delete and edit with an id that no entry carries still write the unchanged
  list. Such a write can fail, roll back, set the error and reject.
- A successful mutation does not clear an error left by an earlier failure.
- The per-mutation fallback messages ("Failed to add todo" and the rest) can never
  appear. `saveTodos` always rethrows an Error, so the `instanceof Error` test in each
  mutation always holds. `Commit` models that test, and `Settled` shows the recorded
  error is always the one produced by `saveTodos`.
- Ids are `Date.now().toString()`, so the code does not guarantee they are unique.
  The model does not assume unique ids. Toggle, edit and delete act on every entry
  with a matching id, and uniqueness appears only as an invariant each operation
  preserves.

Two methods in `store.dfy` are worked examples and carry no contract of their own.
`CompleteAndClearScenario` adds "Buy milk" to an empty store, completes it and then
clears completed entries. `FailedAddScenario` shows a failed add: the list stays as
it was and the call rejects with the storage's Error.

## Model

| member | source | states |
|---|---|---|
| `JsText.Trim` | hooks/use-async-storage.ts:53-54 | the trimmed text neither starts nor ends with whitespace, and is empty exactly when the input is all whitespace (the `!trimmedText` early return) |
| `JsText.TrimCutsOnlyWhitespace` | hooks/use-async-storage.ts:53 | the trimmed text is a contiguous piece of the input, and only whitespace is cut from either end |
| `JsText.TrimUnpadded` | hooks/use-async-storage.ts:122 | a text that neither starts nor ends with whitespace trims to itself |
| `JsText.TrimIdempotent` | hooks/use-async-storage.ts:122-123 | trimming an already trimmed text changes nothing (so the stored text is a fixpoint of trim) |
| `TodoLists.Filter` | hooks/use-async-storage.ts:106 | the result keeps exactly the accepted elements, each as many times as in the input, in their original order (a subsequence), and nothing else |
| `TodoLists.FilterAllKept` | hooks/use-async-storage.ts:148 | filtering a list whose every element is accepted returns it unchanged |
| `TodoLists.FilterIdempotent` | hooks/use-async-storage.ts:148 | filtering twice by the same callback equals filtering once |
| `TodoLists.AddList` | hooks/use-async-storage.ts:56-63 | the new list is the old one with one entry appended at the end, with the given id, the trimmed text, not completed, the given creation time and no `completedAt`; all earlier entries are unchanged |
| `TodoLists.AddKeepsWellFormed` | hooks/use-async-storage.ts:52-63 | appending a non-empty trimmed text keeps every entry well formed |
| `TodoLists.AddKeepsUniqueIds` | hooks/use-async-storage.ts:57-63 | with an id no entry carries, appending keeps ids distinct |
| `TodoLists.ToggleList` | hooks/use-async-storage.ts:80-89 | length and order are kept; an entry with a matching id has `completed` flipped, `completedAt` set to the time when it becomes completed and cleared when it becomes uncompleted, and id, text and creation time kept; every other entry is identical |
| `TodoLists.ToggleMissing` | hooks/use-async-storage.ts:80-89 | an id no entry carries leaves the list unchanged |
| `TodoLists.ToggleTwice` | hooks/use-async-storage.ts:84-85 | toggling the same id twice restores every `completed`; a matching entry that started uncompleted has no `completedAt` again; other entries are untouched |
| `TodoLists.ToggleTwiceRestores` | hooks/use-async-storage.ts:84-85 | when every matching entry starts uncompleted without `completedAt`, toggling twice gives back the same list |
| `TodoLists.ToggleKeepsWellFormed` | hooks/use-async-storage.ts:82-86 | toggling keeps "completedAt present exactly while completed" and the texts |
| `TodoLists.ToggleKeepsUniqueIds` | hooks/use-async-storage.ts:80-89 | toggling keeps ids distinct |
| `TodoLists.DeleteList` | hooks/use-async-storage.ts:106 | no entry with the id remains; every other entry stays as often as before, in its original order; nothing new appears |
| `TodoLists.DeleteMissing` | hooks/use-async-storage.ts:106 | deleting an id no entry carries leaves the list unchanged |
| `TodoLists.DeleteIdempotent` | hooks/use-async-storage.ts:106 | deleting twice equals deleting once |
| `TodoLists.DeleteKeepsWellFormed` | hooks/use-async-storage.ts:106 | deleting keeps every entry well formed |
| `TodoLists.DeleteKeepsUniqueIds` | hooks/use-async-storage.ts:106 | deleting keeps ids distinct |
| `TodoLists.EditList` | hooks/use-async-storage.ts:126-131 | length and order are kept; a matching entry gets the new text and keeps id, `completed`, `createdAt` and `completedAt`; every other entry is identical |
| `TodoLists.EditMissing` | hooks/use-async-storage.ts:126-131 | an id no entry carries leaves the list unchanged |
| `TodoLists.EditIdempotent` | hooks/use-async-storage.ts:126-131 | editing twice with the same text equals editing once |
| `TodoLists.EditKeepsWellFormed` | hooks/use-async-storage.ts:122-131 | editing with a non-empty trimmed text keeps every entry well formed |
| `TodoLists.EditKeepsUniqueIds` | hooks/use-async-storage.ts:126-131 | editing keeps ids distinct |
| `TodoLists.ClearCompletedList` | hooks/use-async-storage.ts:148 | no completed entry remains; every uncompleted entry stays as often as before, in its original order; nothing new appears |
| `TodoLists.ClearCompletedIdempotent` | hooks/use-async-storage.ts:148 | clearing completed entries twice equals clearing once |
| `TodoLists.ClearCompletedNoneCompleted` | hooks/use-async-storage.ts:148 | a list with no completed entry is left unchanged |
| `TodoLists.ClearCompletedKeepsWellFormed` | hooks/use-async-storage.ts:148 | clearing keeps every entry well formed |
| `TodoLists.ClearCompletedKeepsUniqueIds` | hooks/use-async-storage.ts:148 | clearing keeps ids distinct |
| `TodoStorage.AsError` | hooks/use-async-storage.ts:47-48 | a rejection that carries an Error is kept as it is; any other value becomes an Error with the fallback message |
| `TodoStorage.TodoStore.constructor` | hooks/use-async-storage.ts:19-21 | the hook starts with an empty list, loading, and no error |
| `TodoStorage.TodoStore.LoadTodos` | hooks/use-async-storage.ts:28-42 | loading always ends false; the error is cleared first; a read failure records an Error and keeps the list; an empty slot keeps the list and leaves no error; an unparsable slot records its SyntaxError and keeps the list; a stored list replaces the in-memory one, which then matches the slot |
| `TodoStorage.TodoStore.SaveTodos` | hooks/use-async-storage.ts:44-50 | a successful write puts the whole list in the slot; a failed one leaves the slot alone and fails with an Error |
| `TodoStorage.TodoStore.Commit` | hooks/use-async-storage.ts:65-75 | on success the list and the slot both equal the new list and the error is untouched; on failure the list is the snapshot, the slot is untouched, the error is recorded and the call rejects with it |
| `TodoStorage.TodoStore.AddTodo` | hooks/use-async-storage.ts:52-76 | blank text changes nothing and resolves; otherwise the new list is AddList with the trimmed text, settled as in Commit; it keeps slot/list agreement and well-formedness, and keeps ids distinct when the id is fresh |
| `TodoStorage.TodoStore.ToggleTodo` | hooks/use-async-storage.ts:78-102 | the new list is ToggleList, settled as in Commit; it keeps slot/list agreement, well-formedness and distinct ids |
| `TodoStorage.TodoStore.DeleteTodo` | hooks/use-async-storage.ts:104-119 | the new list is DeleteList, settled as in Commit; it keeps slot/list agreement, well-formedness and distinct ids |
| `TodoStorage.TodoStore.EditTodo` | hooks/use-async-storage.ts:121-144 | blank text changes nothing and resolves; otherwise the new list is EditList with the trimmed text, settled as in Commit; it keeps slot/list agreement, well-formedness and distinct ids |
| `TodoStorage.TodoStore.ClearCompleted` | hooks/use-async-storage.ts:146-161 | the new list is ClearCompletedList, settled as in Commit; it keeps slot/list agreement, well-formedness and distinct ids |

## Left out

- AsyncStorage and JSON: the slot is a value (`Slot`). Serialising and parsing a list are taken as an exact round trip. A parsed value that is not an array of to-do records, which the hook casts without checking, is not modelled. The storage key is a single fixed slot.
- `Date.now()`: the new id, `createdAt` and the completion time are parameters. The id and `createdAt` come from two separate clock reads in the hook, so they are separate parameters here.
- TodoLists.ToggleList: uses one completion time for every matching entry. The hook reads the clock once per matching entry, and with duplicate ids those readings may differ.
- React machinery (`useState`, `useEffect`, `useCallback`): operations run strictly one after another. The race between overlapping mutations, where one mutation works from a stale snapshot, is not modelled. Nothing calls `LoadTodos` automatically at mount; the caller must invoke it.
- TodoStorage.TodoStore.Commit: the pending-write state is not represented. While a write is in flight, the hook's `todos` already holds the new list and `stored` still holds the old one; the model settles each write at once, so its contracts cannot tell the optimistic update and rollback apart from updating the list only after a successful write.
- Promise rejection: a mutation's `throw` is the `Rejected` outcome. A save that never settles is not modelled.
- JavaScript strings are UTF-16 code units; the model uses sequences of Unicode characters. Trimming is the same for both, because every whitespace code point is a single code unit.
- The presentation components (screen, input and item views): they are UI. Their only logic, the trim check before calling the hook, repeats the hook's own check.
