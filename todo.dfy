/** The to-do record and the invariants a list of them is meant to keep. */
module Todos {
  import opened JsText

  datatype Option<T> = None | Some(value: T)

  /** One to-do entry. `createdAt` and `completedAt` are epoch milliseconds; an
      absent `completedAt` is the field left `undefined`. */
  datatype Todo = Todo(id: string, text: string, completed: bool, createdAt: nat, completedAt: Option<nat>)

  /** `completedAt` is present exactly while the entry is completed. */
  predicate CompletionConsistent(t: Todo) {
    t.completed <==> t.completedAt.Some?
  }

  /** The text is non-empty and already trimmed, as every text the hook writes is. */
  predicate TextTrimmed(t: Todo) {
    t.text != [] && Trim(t.text) == t.text
  }

  predicate WellFormedEntry(t: Todo) {
    CompletionConsistent(t) && TextTrimmed(t)
  }

  /** Every entry of the list is well formed. */
  predicate WellFormed(todos: seq<Todo>) {
    forall i :: 0 <= i < |todos| ==> WellFormedEntry(todos[i])
  }

  /** No two entries share an id. The hook does not enforce this (ids are clock
      readings); the lemmas only show which operations keep it. */
  predicate UniqueIds(todos: seq<Todo>) {
    forall i, j :: 0 <= i < j < |todos| ==> todos[i].id != todos[j].id
  }

  /** No entry carries `id`. */
  predicate FreshId(todos: seq<Todo>, id: string) {
    forall i :: 0 <= i < |todos| ==> todos[i].id != id
  }
}
