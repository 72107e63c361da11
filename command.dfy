/** The command handlers of task_cli/cmd/command.go, as calls on a shared store. */
module Cmd {
  import opened Seqs
  import opened Models

  /** The outcome of parsing an ID argument as a base-10 `int64`: `None` when parsing failed. */
  datatype Option<T> = None | Some(value: T)

  /** Keeps the tasks whose status string is exactly `status`. */
  function HasStatus(status: string): Task -> bool {
    (t: Task) => t.status == status
  }

  /** The tasks `list <status>` shows: those whose status equals `status`, in store order. */
  function WithStatus(ts: seq<Task>, status: string): (r: seq<Task>)
    ensures forall t :: t in r <==> t in ts && t.status == status
  {
    Filter(ts, HasStatus(status))
  }

  /** When every status is one of the three named ones, a filter string that names
      none of them selects nothing. */
  lemma UnknownFilterSelectsNothing(ts: seq<Task>, status: string)
    requires forall t :: t in ts ==> IsKnownStatus(t.status)
    requires !IsKnownStatus(status)
    ensures WithStatus(ts, status) == []
  {
    FilterKeepsNone(ts, HasStatus(status));
  }

  /** `list [status]`: with no argument the whole sequence, otherwise the tasks whose
      status equals the first argument. It has no modifies clause, so the store is
      left as it is. */
  method ListAll(store: TaskStore, args: seq<string>) returns (tasksToShow: seq<Task>)
    ensures |args| == 0 ==> tasksToShow == store.Tasks
    ensures |args| > 0 ==> tasksToShow == WithStatus(store.Tasks, args[0])
  {
    if |args| > 0 {
      var status := args[0];
      tasksToShow := [];
      var i := 0;
      while i < |store.Tasks|
        invariant 0 <= i <= |store.Tasks|
        invariant tasksToShow == WithStatus(store.Tasks[..i], status)
      {
        var t := store.Tasks[i];
        FilterSnoc(store.Tasks[..i], t, HasStatus(status));
        assert store.Tasks[..i + 1] == store.Tasks[..i] + [t];
        if t.status == status {
          tasksToShow := tasksToShow + [t];
        }
        i := i + 1;
      }
      assert store.Tasks[..i] == store.Tasks;
    } else {
      tasksToShow := store.Tasks;
    }
  }

  /** `mark-todo <id>`: status code 0. */
  method MarkTodo(store: TaskStore, parsedId: Option<Int64>)
    modifies store`Tasks
    ensures parsedId.None? ==> store.Tasks == old(store.Tasks)
    ensures parsedId.Some? ==> store.Tasks == WithStatusSet(old(store.Tasks), parsedId.value, StatusTodo)
  {
    if parsedId.None? {
      return;
    }
    store.UpdateStatusTask(parsedId.value, 0);
  }

  /** `mark-in-progress <id>`: status code 1. */
  method MarkInProgress(store: TaskStore, parsedId: Option<Int64>)
    modifies store`Tasks
    ensures parsedId.None? ==> store.Tasks == old(store.Tasks)
    ensures parsedId.Some? ==> store.Tasks == WithStatusSet(old(store.Tasks), parsedId.value, StatusInProgress)
  {
    if parsedId.None? {
      return;
    }
    store.UpdateStatusTask(parsedId.value, 1);
  }

  /** `mark-done <id>`: status code 2. */
  method MarkDone(store: TaskStore, parsedId: Option<Int64>)
    modifies store`Tasks
    ensures parsedId.None? ==> store.Tasks == old(store.Tasks)
    ensures parsedId.Some? ==> store.Tasks == WithStatusSet(old(store.Tasks), parsedId.value, StatusDone)
  {
    if parsedId.None? {
      return;
    }
    store.UpdateStatusTask(parsedId.value, 2);
  }

  /** `delete <id>`: the filtered copy replaces the store's sequence. Afterwards no task
      has that ID, and strictly increasing IDs stay strictly increasing. */
  method DeleteCmd(store: TaskStore, parsedId: Option<Int64>)
    modifies store`Tasks
    ensures parsedId.None? ==> store.Tasks == old(store.Tasks)
    ensures parsedId.Some? ==> store.Tasks == Without(old(store.Tasks), parsedId.value)
    ensures parsedId.Some? ==> forall t :: t in store.Tasks ==> t.id != parsedId.value
    ensures IdsIncreasing(old(store.Tasks)) ==> IdsIncreasing(store.Tasks)
  {
    if parsedId.None? {
      return;
    }
    var newTasks := store.DeleteTask(parsedId.value);
    store.Tasks := newTasks;
    if IdsIncreasing(old(store.Tasks)) {
      DeletePreservesIncreasing(old(store.Tasks), parsedId.value);
    }
  }

  /** `update <id> <description>`. */
  method UpdateCmd(store: TaskStore, parsedId: Option<Int64>, description: string)
    modifies store`Tasks
    ensures parsedId.None? ==> store.Tasks == old(store.Tasks)
    ensures parsedId.Some? ==> store.Tasks == WithTaskSet(old(store.Tasks), parsedId.value, description)
  {
    if parsedId.None? {
      return;
    }
    store.UpdateTask(parsedId.value, description);
  }

  /** `add <description>`. `saveFailed` stands for the outcome of the save that follows
      the addition; the new ID is announced only when the save succeeded. */
  method AddCmd(store: TaskStore, description: string, saveFailed: bool) returns (announced: Option<Int64>)
    modifies store`Tasks
    ensures store.Tasks == old(store.Tasks) + [NewTask(old(store.Tasks), description)]
    ensures announced == if saveFailed then None else Some(NextId(old(store.Tasks)))
  {
    var task := store.AddTask(description);
    if saveFailed {
      return None;
    }
    announced := Some(task.id);
  }

  /** `add` run once per description, in order, with every save succeeding. */
  method AddEach(store: TaskStore, descriptions: seq<string>)
    modifies store`Tasks
    ensures store.Tasks == AddedAll(old(store.Tasks), descriptions)
  {
    var i := 0;
    while i < |descriptions|
      invariant 0 <= i <= |descriptions|
      invariant AddedAll(store.Tasks, descriptions[i..]) == AddedAll(old(store.Tasks), descriptions)
    {
      assert descriptions[i..][1..] == descriptions[i + 1..];
      var _ := AddCmd(store, descriptions[i], false);
      i := i + 1;
    }
  }

  /** A session from an empty store: add "buy milk" and "walk dog", mark task 1 done,
      delete task 1. What remains is task 2, untouched. */
  method BuyMilkWalkDog() returns (remaining: seq<Task>)
    ensures remaining == [Task(2, "walk dog", StatusTodo)]
  {
    var store := new TaskStore.NewTaskStore("config.json");
    var first := AddCmd(store, "buy milk", false);
    var second := AddCmd(store, "walk dog", false);
    assert first == Some(1) && second == Some(2);
    var milk, dog := Task(1, "buy milk", StatusTodo), Task(2, "walk dog", StatusTodo);
    assert store.Tasks == [milk, dog];
    MarkDone(store, Some(1));
    assert StaleStatusIndex([milk, dog], 1, StatusDone) == 0;
    assert store.Tasks == [milk.(status := StatusDone), dog];
    DeleteCmd(store, Some(1));
    IncreasingIdsAreUnique([milk.(status := StatusDone), dog]);
    DeleteRemovesExactlyOne([milk.(status := StatusDone), dog], 0);
    remaining := store.Tasks;
  }
}
