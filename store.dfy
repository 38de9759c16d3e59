/** The state layer of the to-do hook: the in-memory list, the loading flag, the
    error slot and the one durable storage slot, with the load operation and the
    five mutations that update the list optimistically, write it and roll back
    when the write fails. Operations run one after another. */
module TodoStorage {
  import opened Todos
  import opened TodoLists
  import JsText

  /** An Error object, as held in the hook's error slot. */
  datatype Error = Error(message: string)

  /** What the durable slot under the storage key holds. `Empty` is both a missing
      entry and an empty string (both falsy to the hook); `Unparsable` is a string
      JSON.parse rejects, with the SyntaxError it raises; `Holds` is a serialized
      list, whose parse is taken to give back exactly that list. */
  datatype Slot = Empty | Unparsable(syntaxError: Error) | Holds(list: seq<Todo>)

  /** The value a rejected storage promise carries: an Error instance or some other value. */
  datatype Thrown = Raised(error: Error) | RaisedOther

  /** How one storage call settles. */
  datatype StorageCall = Succeeds | Rejects(thrown: Thrown)

  /** How the promise a mutation returns settles. */
  datatype Outcome = Resolved | Rejected(reason: Error)

  const LoadFallback := "Failed to load todos"
  const SaveFallback := "Failed to save todos"
  const AddFallback := "Failed to add todo"
  const ToggleFallback := "Failed to toggle todo"
  const DeleteFallback := "Failed to delete todo"
  const EditFallback := "Failed to edit todo"
  const ClearFallback := "Failed to clear completed"

  /** The thrown value when it is an Error, else a new Error carrying `fallback`. */
  function AsError(t: Thrown, fallback: string): (e: Error)
    ensures t.Raised? ==> e == t.error
    ensures t.RaisedOther? ==> e.message == fallback
  {
    match t
    case Raised(err) => err
    case RaisedOther => Error(fallback)
  }

  /** The Error a failed write leaves behind: saveTodos always rethrows an Error,
      so the per-mutation fallback messages never show. */
  function SaveError(t: Thrown): (e: Error) {
    AsError(t, SaveFallback)
  }

  class TodoStore {
    var todos: seq<Todo>
    var loading: bool
    var error: Option<Error>
    var stored: Slot

    /** The hook's initial state: an empty list, loading, no error; `slot` is what
        the device's storage already holds. */
    constructor (slot: Slot)
      ensures todos == [] && loading && error == None && stored == slot
    {
      todos := [];
      loading := true;
      error := None;
      stored := slot;
    }

    /** The durable slot holds exactly the in-memory list. */
    ghost predicate Synced()
      reads this
    {
      stored == Holds(todos)
    }

    /** How a mutation that wrote `updated` ends: on success the list and the slot
        both equal `updated` and the error slot is left alone; on failure the list
        is the snapshot taken before the call, the slot is untouched, the error is
        recorded and the returned promise rejects with it. */
    twostate predicate Settled(updated: seq<Todo>, write: StorageCall, outcome: Outcome)
      reads this
    {
      if write.Succeeds? then
        todos == updated && stored == Holds(updated) && error == old(error) && outcome == Resolved
      else
        todos == old(todos) && stored == old(stored) &&
        error == Some(SaveError(write.thrown)) && outcome == Rejected(SaveError(write.thrown))
    }

    /** loadTodos: read the slot once; `read` is how the storage read settles. */
    method LoadTodos(read: StorageCall)
      modifies this`todos, this`loading, this`error
      ensures !loading
      ensures read.Rejects? ==> todos == old(todos) && error == Some(AsError(read.thrown, LoadFallback))
      ensures read.Succeeds? && stored.Empty? ==> todos == old(todos) && error == None
      ensures read.Succeeds? && stored.Unparsable? ==> todos == old(todos) && error == Some(stored.syntaxError)
      ensures read.Succeeds? && stored.Holds? ==> todos == stored.list && error == None && Synced()
    {
      loading := true;
      error := None;
      if read.Rejects? {
        error := Some(AsError(read.thrown, LoadFallback));
      } else {
        match stored
        case Empty =>
        case Unparsable(e) => error := Some(e);
        case Holds(list) => todos := list;
      }
      loading := false;
    }

    /** saveTodos: overwrite the slot with the whole list, or fail with an Error. */
    method SaveTodos(updated: seq<Todo>, write: StorageCall) returns (failure: Option<Error>)
      modifies this`stored
      ensures write.Succeeds? ==> failure == None && stored == Holds(updated)
      ensures write.Rejects? ==> failure == Some(SaveError(write.thrown)) && stored == old(stored)
    {
      if write.Rejects? {
        failure := Some(AsError(write.thrown, SaveFallback));
      } else {
        stored := Holds(updated);
        failure := None;
      }
    }

    /** The discipline every mutation follows: snapshot, apply `updated`
        optimistically, write it, and on failure restore the snapshot, record the
        error (`fallback` is the mutation's own message) and reject. */
    method Commit(updated: seq<Todo>, write: StorageCall, fallback: string) returns (outcome: Outcome)
      modifies this`todos, this`stored, this`error
      ensures Settled(updated, write, outcome)
    {
      var previous := todos;
      todos := updated;
      var failure := SaveTodos(updated, write);
      if failure.Some? {
        todos := previous;
        var e := AsError(Raised(failure.value), fallback);
        error := Some(e);
        outcome := Rejected(failure.value);
      } else {
        outcome := Resolved;
      }
    }

    /** addTodo: a text that trims to nothing returns at once; otherwise the entry
        made from `id`, the trimmed text and `createdAt` is appended and written. */
    method AddTodo(text: string, id: string, createdAt: nat, write: StorageCall) returns (outcome: Outcome)
      modifies this`todos, this`stored, this`error
      ensures JsText.Trim(text) == [] ==>
        outcome == Resolved && todos == old(todos) && stored == old(stored) && error == old(error)
      ensures JsText.Trim(text) != [] ==>
        Settled(AddList(old(todos), id, JsText.Trim(text), createdAt), write, outcome)
      ensures old(Synced()) ==> Synced()
      ensures old(WellFormed(todos)) ==> WellFormed(todos)
      ensures old(UniqueIds(todos)) && FreshId(old(todos), id) ==> UniqueIds(todos)
    {
      var trimmed := JsText.Trim(text);
      if trimmed == [] {
        return Resolved;
      }
      JsText.TrimIdempotent(text);
      var updated := AddList(todos, id, trimmed, createdAt);
      if WellFormed(todos) {
        AddKeepsWellFormed(todos, id, trimmed, createdAt);
      }
      if UniqueIds(todos) && FreshId(todos, id) {
        AddKeepsUniqueIds(todos, id, trimmed, createdAt);
      }
      outcome := Commit(updated, write, AddFallback);
    }

    /** toggleTodo: flip every entry carrying `id`, stamping `now` on completion. */
    method ToggleTodo(id: string, now: nat, write: StorageCall) returns (outcome: Outcome)
      modifies this`todos, this`stored, this`error
      ensures Settled(ToggleList(old(todos), id, now), write, outcome)
      ensures old(Synced()) ==> Synced()
      ensures old(WellFormed(todos)) ==> WellFormed(todos)
      ensures old(UniqueIds(todos)) ==> UniqueIds(todos)
    {
      var updated := ToggleList(todos, id, now);
      if WellFormed(todos) {
        ToggleKeepsWellFormed(todos, id, now);
      }
      if UniqueIds(todos) {
        ToggleKeepsUniqueIds(todos, id, now);
      }
      outcome := Commit(updated, write, ToggleFallback);
    }

    /** deleteTodo: drop every entry carrying `id`. */
    method DeleteTodo(id: string, write: StorageCall) returns (outcome: Outcome)
      modifies this`todos, this`stored, this`error
      ensures Settled(DeleteList(old(todos), id), write, outcome)
      ensures old(Synced()) ==> Synced()
      ensures old(WellFormed(todos)) ==> WellFormed(todos)
      ensures old(UniqueIds(todos)) ==> UniqueIds(todos)
    {
      var updated := DeleteList(todos, id);
      if WellFormed(todos) {
        DeleteKeepsWellFormed(todos, id);
      }
      if UniqueIds(todos) {
        DeleteKeepsUniqueIds(todos, id);
      }
      outcome := Commit(updated, write, DeleteFallback);
    }

    /** editTodo: a text that trims to nothing returns at once; otherwise every
        entry carrying `id` gets the trimmed text. */
    method EditTodo(id: string, newText: string, write: StorageCall) returns (outcome: Outcome)
      modifies this`todos, this`stored, this`error
      ensures JsText.Trim(newText) == [] ==>
        outcome == Resolved && todos == old(todos) && stored == old(stored) && error == old(error)
      ensures JsText.Trim(newText) != [] ==>
        Settled(EditList(old(todos), id, JsText.Trim(newText)), write, outcome)
      ensures old(Synced()) ==> Synced()
      ensures old(WellFormed(todos)) ==> WellFormed(todos)
      ensures old(UniqueIds(todos)) ==> UniqueIds(todos)
    {
      var trimmed := JsText.Trim(newText);
      if trimmed == [] {
        return Resolved;
      }
      JsText.TrimIdempotent(newText);
      var updated := EditList(todos, id, trimmed);
      if WellFormed(todos) {
        EditKeepsWellFormed(todos, id, trimmed);
      }
      if UniqueIds(todos) {
        EditKeepsUniqueIds(todos, id, trimmed);
      }
      outcome := Commit(updated, write, EditFallback);
    }

    /** clearCompleted: keep only the entries not completed. */
    method ClearCompleted(write: StorageCall) returns (outcome: Outcome)
      modifies this`todos, this`stored, this`error
      ensures Settled(ClearCompletedList(old(todos)), write, outcome)
      ensures old(Synced()) ==> Synced()
      ensures old(WellFormed(todos)) ==> WellFormed(todos)
      ensures old(UniqueIds(todos)) ==> UniqueIds(todos)
    {
      var updated := ClearCompletedList(todos);
      if WellFormed(todos) {
        ClearCompletedKeepsWellFormed(todos);
      }
      if UniqueIds(todos) {
        ClearCompletedKeepsUniqueIds(todos);
      }
      outcome := Commit(updated, write, ClearFallback);
    }
  }

  /** Starting from an empty device: add "Buy milk", complete it, clear the
      completed entries. */
  method CompleteAndClearScenario() {
    var store := new TodoStore(Empty);
    store.LoadTodos(Succeeds);
    assert store.todos == [] && !store.loading && store.error == None;

    JsText.TrimUnpadded("Buy milk");
    var added := store.AddTodo("Buy milk", "1", 1000, Succeeds);
    assert added == Resolved && |store.todos| == 1 && store.Synced();
    assert store.todos[0].text == "Buy milk" && !store.todos[0].completed;

    var toggled := store.ToggleTodo("1", 2000, Succeeds);
    assert store.todos[0].completed && store.todos[0].completedAt == Some(2000);

    var cleared := store.ClearCompleted(Succeeds);
    assert store.todos == [] && store.stored == Holds([]);
  }

  /** A write that fails leaves the list as it was, records
      the storage's Error and rejects with it. */
  method FailedAddScenario(fault: Error) {
    var store := new TodoStore(Holds([]));
    store.LoadTodos(Succeeds);
    assert store.todos == [] && store.Synced();

    JsText.TrimUnpadded("X");
    var failed := store.AddTodo("X", "3", 4000, Rejects(Raised(fault)));
    assert failed == Rejected(fault) && store.todos == [] && store.error == Some(fault);
    assert store.Synced();
  }
}
