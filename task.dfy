/** The in-memory task store of task_cli/models/task.go: task records, the
    store object that owns their ordered sequence, and its four operations. */
module Models {
  import opened Seqs

  const MinInt64: int := -0x8000_0000_0000_0000
  const MaxInt64: int := 0x7fff_ffff_ffff_ffff
  const TwoTo64: int := 0x1_0000_0000_0000_0000

  /** Go's `int64`. */
  type Int64 = x: int | -0x8000_0000_0000_0000 <= x <= 0x7fff_ffff_ffff_ffff

  /** Two's-complement reduction of a mathematical integer into `int64`, which is
      what Go's `int64` arithmetic does on overflow. */
  function Wrap64(x: int): (r: Int64)
    ensures MinInt64 <= x <= MaxInt64 ==> r == x
    ensures (x - r) % TwoTo64 == 0
  {
    (x - MinInt64) % TwoTo64 + MinInt64
  }

  /** Go's `type TaskStatus string`: any string, of which three are named. */
  type TaskStatus = string

  const StatusTodo: TaskStatus := "todo"
  const StatusInProgress: TaskStatus := "in-progress"
  const StatusDone: TaskStatus := "done"

  predicate IsKnownStatus(s: TaskStatus) {
    s == StatusTodo || s == StatusInProgress || s == StatusDone
  }

  /** A task record; the field names are the record's JSON keys. */
  datatype Task = Task(id: Int64, task: string, status: TaskStatus)

  /** The status that `UpdateStatusTask` assigns for an integer code. */
  function StatusForCode(code: Int64): (s: TaskStatus)
    ensures IsKnownStatus(s)
    ensures s == StatusInProgress <==> code == 1
    ensures s == StatusDone <==> code == 2
    ensures s == StatusTodo <==> code != 1 && code != 2
  {
    if code == 1 then StatusInProgress
    else if code == 2 then StatusDone
    else StatusTodo
  }

  /** The ID `AddTask` gives a new task: 1 in an empty store, otherwise the ID of
      the LAST task plus one, in `int64` arithmetic. */
  function NextId(ts: seq<Task>): (r: Int64)
    ensures ts == [] ==> r == 1
    ensures ts != [] && ts[|ts| - 1].id < MaxInt64 ==> r == ts[|ts| - 1].id + 1
    ensures ts != [] && ts[|ts| - 1].id == MaxInt64 ==> r == MinInt64
  {
    if ts == [] then 1 else Wrap64(ts[|ts| - 1].id + 1)
  }

  /** The task that `AddTask(description)` creates in a store holding `ts`. While
      IDs increase and the last one is below the `int64` maximum, its ID is above
      every stored ID, so it collides with none of them. */
  function NewTask(ts: seq<Task>, description: string): (t: Task)
    ensures t.id == NextId(ts) && t.task == description && t.status == StatusTodo
    ensures IdsIncreasing(ts) && (ts != [] ==> ts[|ts| - 1].id < MaxInt64) ==>
      forall u :: u in ts ==> u.id < t.id
  {
    Task(NextId(ts), description, StatusTodo)
  }

  /** The store's sequence after `AddTask` is called once per description, in order. */
  function AddedAll(ts: seq<Task>, descriptions: seq<string>): (r: seq<Task>)
    ensures |r| == |ts| + |descriptions|
    decreases |descriptions|
  {
    if descriptions == [] then ts
    else AddedAll(ts + [NewTask(ts, descriptions[0])], descriptions[1..])
  }

  /** Index of the first task that `UpdateStatusTask(id, s)` rewrites: the first with
      that ID whose status is not already `s`; `|ts|` when there is none. */
  function StaleStatusIndex(ts: seq<Task>, id: Int64, s: TaskStatus): (k: nat)
    ensures k <= |ts|
    ensures k < |ts| ==> ts[k].id == id && ts[k].status != s
    ensures forall i :: 0 <= i < k ==> !(ts[i].id == id && ts[i].status != s)
  {
    if ts == [] then 0
    else if ts[0].id == id && ts[0].status != s then 0
    else 1 + StaleStatusIndex(ts[1..], id, s)
  }

  /** The store's sequence after `UpdateStatusTask` has set status `s` on task `id`. */
  function WithStatusSet(ts: seq<Task>, id: Int64, s: TaskStatus): (r: seq<Task>)
    ensures |r| == |ts|
    ensures forall i :: 0 <= i < |ts| ==> r[i].id == ts[i].id && r[i].task == ts[i].task
    ensures forall i :: 0 <= i < |ts| && r[i] != ts[i] ==> ts[i].id == id && r[i].status == s
    ensures forall i, j :: 0 <= i < j < |ts| && r[i] != ts[i] ==> r[j] == ts[j]
    ensures forall i, j :: 0 <= i < j < |ts| && r[j] != ts[j] ==> r[i] == ts[i]
    ensures (forall i :: 0 <= i < |ts| ==> ts[i].id != id) ==> r == ts
    ensures forall i :: 0 <= i < |ts| && ts[i].id == id ==> exists j :: 0 <= j < |ts| && r[j].id == id && r[j].status == s
    ensures StaleStatusIndex(ts, id, s) < |ts| ==> r[StaleStatusIndex(ts, id, s)].status == s
  {
    var k := StaleStatusIndex(ts, id, s);
    if k == |ts| then ts else ts[k := ts[k].(status := s)]
  }

  /** Index of the first task that `UpdateTask(id, d)` rewrites: the first with that
      ID whose description is not already `d`; `|ts|` when there is none. */
  function StaleTaskIndex(ts: seq<Task>, id: Int64, d: string): (k: nat)
    ensures k <= |ts|
    ensures k < |ts| ==> ts[k].id == id && ts[k].task != d
    ensures forall i :: 0 <= i < k ==> !(ts[i].id == id && ts[i].task != d)
  {
    if ts == [] then 0
    else if ts[0].id == id && ts[0].task != d then 0
    else 1 + StaleTaskIndex(ts[1..], id, d)
  }

  /** The store's sequence after `UpdateTask` has set description `d` on task `id`. */
  function WithTaskSet(ts: seq<Task>, id: Int64, d: string): (r: seq<Task>)
    ensures |r| == |ts|
    ensures forall i :: 0 <= i < |ts| ==> r[i].id == ts[i].id && r[i].status == ts[i].status
    ensures forall i :: 0 <= i < |ts| && r[i] != ts[i] ==> ts[i].id == id && r[i].task == d
    ensures forall i, j :: 0 <= i < j < |ts| && r[i] != ts[i] ==> r[j] == ts[j]
    ensures forall i, j :: 0 <= i < j < |ts| && r[j] != ts[j] ==> r[i] == ts[i]
    ensures (forall i :: 0 <= i < |ts| ==> ts[i].id != id) ==> r == ts
    ensures forall i :: 0 <= i < |ts| && ts[i].id == id ==> exists j :: 0 <= j < |ts| && r[j].id == id && r[j].task == d
    ensures StaleTaskIndex(ts, id, d) < |ts| ==> r[StaleTaskIndex(ts, id, d)].task == d
  {
    var k := StaleTaskIndex(ts, id, d);
    if k == |ts| then ts else ts[k := ts[k].(task := d)]
  }

  /** Keeps the tasks whose ID is not `id`. */
  function OtherThan(id: Int64): Task -> bool {
    (t: Task) => t.id != id
  }

  /** What `DeleteTask(id)` returns for a store holding `ts`. */
  function Without(ts: seq<Task>, id: Int64): (r: seq<Task>)
    ensures forall t :: t in r <==> t in ts && t.id != id
  {
    Filter(ts, OtherThan(id))
  }

  /** IDs strictly increase along the sequence. */
  ghost predicate IdsIncreasing(ts: seq<Task>) {
    forall i, j :: 0 <= i < j < |ts| ==> ts[i].id < ts[j].id
  }

  ghost predicate IdsUnique(ts: seq<Task>) {
    forall i, j :: 0 <= i < |ts| && 0 <= j < |ts| && i != j ==> ts[i].id != ts[j].id
  }

  /** The object of task.go's `TaskStore`. Its mutex is not modelled. */
  class TaskStore {
    var Tasks: seq<Task>
    var filePath: string

    /** Go's `NewTaskStore`. */
    constructor NewTaskStore(filePath: string)
      ensures Tasks == [] && this.filePath == filePath
    {
      this.filePath := filePath;
      Tasks := [];
    }

    method AddTask(description: string) returns (task: Task)
      modifies this`Tasks
      ensures task == NewTask(old(Tasks), description)
      ensures Tasks == old(Tasks) + [task]
    {
      var newId: Int64 := 1;
      if |Tasks| > 0 {
        var lastTask := Tasks[|Tasks| - 1];
        newId := Wrap64(lastTask.id + 1);
      }
      task := Task(newId, description, StatusTodo);
      Tasks := Tasks + [task];
    }

    method UpdateStatusTask(id: Int64, typeStatus: Int64)
      modifies this`Tasks
      ensures Tasks == WithStatusSet(old(Tasks), id, StatusForCode(typeStatus))
    {
      var s := StatusForCode(typeStatus);
      var i := 0;
      while i < |Tasks|
        invariant 0 <= i <= |Tasks|
        invariant Tasks == old(Tasks)
        invariant forall j :: 0 <= j < i ==> !(Tasks[j].id == id && Tasks[j].status != s)
      {
        if Tasks[i].id == id {
          if Tasks[i].status != s {
            Tasks := Tasks[i := Tasks[i].(status := s)];
            break;
          }
        }
        i := i + 1;
      }
    }

    method UpdateTask(id: Int64, description: string)
      modifies this`Tasks
      ensures Tasks == WithTaskSet(old(Tasks), id, description)
    {
      var i := 0;
      while i < |Tasks|
        invariant 0 <= i <= |Tasks|
        invariant Tasks == old(Tasks)
        invariant forall j :: 0 <= j < i ==> !(Tasks[j].id == id && Tasks[j].task != description)
      {
        if Tasks[i].id == id {
          if Tasks[i].task != description {
            Tasks := Tasks[i := Tasks[i].(task := description)];
            break;
          }
        }
        i := i + 1;
      }
    }

    /** Builds the filtered copy; the store itself is left as it is (no modifies clause). */
    method DeleteTask(id: Int64) returns (newTasks: seq<Task>)
      ensures newTasks == Without(Tasks, id)
    {
      newTasks := [];
      var i := 0;
      while i < |Tasks|
        invariant 0 <= i <= |Tasks|
        invariant newTasks == Without(Tasks[..i], id)
      {
        FilterSnoc(Tasks[..i], Tasks[i], OtherThan(id));
        assert Tasks[..i + 1] == Tasks[..i] + [Tasks[i]];
        if Tasks[i].id != id {
          newTasks := newTasks + [Tasks[i]];
        }
        i := i + 1;
      }
      assert Tasks[..i] == Tasks;
    }
  }

  // ---------------------------------------------------------------------------
  // Properties of the specification functions

  /** Strictly increasing IDs are unique. */
  lemma IncreasingIdsAreUnique(ts: seq<Task>)
    requires IdsIncreasing(ts)
    ensures IdsUnique(ts)
  {
  }

  /** The new ID depends on the last task only, whatever precedes it. */
  lemma NextIdDependsOnlyOnLast(p: seq<Task>, q: seq<Task>, last: Task)
    ensures NextId(p + [last]) == NextId(q + [last]) == NextId([last])
  {
  }

  /** While IDs increase and the last one is below the `int64` maximum, the new ID
      exceeds every ID in the store, so it collides with none of them. */
  lemma NextIdAboveAll(ts: seq<Task>)
    requires IdsIncreasing(ts)
    requires ts != [] ==> ts[|ts| - 1].id < MaxInt64
    ensures forall t :: t in ts ==> t.id < NextId(ts)
  {
  }

  /** Adding keeps IDs strictly increasing (below the `int64` maximum). */
  lemma AddPreservesIncreasing(ts: seq<Task>, description: string)
    requires IdsIncreasing(ts)
    requires ts != [] ==> ts[|ts| - 1].id < MaxInt64
    ensures IdsIncreasing(ts + [NewTask(ts, description)])
  {
  }

  /** Adding to a store whose IDs are 1..n numbers the new tasks n+1, n+2, ... */
  lemma {:induction false} AddedAllNumbers(ts: seq<Task>, descriptions: seq<string>)
    requires forall i :: 0 <= i < |ts| ==> ts[i].id == i + 1
    requires |ts| + |descriptions| <= MaxInt64
    ensures AddedAll(ts, descriptions)[..|ts|] == ts
    ensures forall j :: 0 <= j < |descriptions| ==>
      AddedAll(ts, descriptions)[|ts| + j] == Task(|ts| + j + 1, descriptions[j], StatusTodo)
    decreases |descriptions|
  {
    if descriptions != [] {
      var next := ts + [NewTask(ts, descriptions[0])];
      assert NewTask(ts, descriptions[0]) == Task(|ts| + 1, descriptions[0], StatusTodo);
      AddedAllNumbers(next, descriptions[1..]);
      var r := AddedAll(ts, descriptions);
      assert r == AddedAll(next, descriptions[1..]);
      assert r[..|ts|] == r[..|next|][..|ts|];
      forall j | 0 <= j < |descriptions|
        ensures r[|ts| + j] == Task(|ts| + j + 1, descriptions[j], StatusTodo)
      {
        if j == 0 {
          assert r[|ts|] == r[..|next|][|ts|];
        } else {
          assert r[|next| + (j - 1)] == Task(|next| + (j - 1) + 1, descriptions[1..][j - 1], StatusTodo);
        }
      }
    }
  }

  /** N additions to an empty store produce IDs 1..N, in call order, all todo. */
  lemma AddsFromEmpty(descriptions: seq<string>)
    requires |descriptions| <= MaxInt64
    ensures |AddedAll([], descriptions)| == |descriptions|
    ensures forall i :: 0 <= i < |descriptions| ==>
      AddedAll([], descriptions)[i] == Task(i + 1, descriptions[i], StatusTodo)
  {
    AddedAllNumbers([], descriptions);
  }

  /** Putting a task in front of increasing tasks with larger IDs keeps them increasing. */
  lemma PrependPreservesIncreasing(x: Task, rest: seq<Task>)
    requires IdsIncreasing(rest)
    requires forall t :: t in rest ==> x.id < t.id
    ensures IdsIncreasing([x] + rest)
  {
    var r := [x] + rest;
    forall i, j | 0 <= i < j < |r| ensures r[i].id < r[j].id {
      assert r[j] == rest[j - 1];
      if i == 0 {
        assert rest[j - 1] in rest;
      } else {
        assert r[i] == rest[i - 1];
      }
    }
  }

  /** Any order-preserving selection keeps IDs strictly increasing. */
  lemma {:induction false} FilterPreservesIncreasing(ts: seq<Task>, keep: Task -> bool)
    requires IdsIncreasing(ts)
    ensures IdsIncreasing(Filter(ts, keep))
  {
    if ts != [] {
      var rest := Filter(ts[1..], keep);
      FilterPreservesIncreasing(ts[1..], keep);
      forall x | x in rest ensures ts[0].id < x.id {
        var j :| 0 <= j < |ts[1..]| && ts[1..][j] == x;
        assert ts[j + 1] == x;
      }
      if keep(ts[0]) {
        assert Filter(ts, keep) == [ts[0]] + rest;
        PrependPreservesIncreasing(ts[0], rest);
      } else {
        assert Filter(ts, keep) == [] + rest == rest;
      }
    }
  }

  /** Deleting keeps IDs strictly increasing. */
  lemma DeletePreservesIncreasing(ts: seq<Task>, id: Int64)
    requires IdsIncreasing(ts)
    ensures IdsIncreasing(Without(ts, id))
  {
    FilterPreservesIncreasing(ts, OtherThan(id));
  }

  /** Both updates keep every ID where it is, so they keep IDs strictly increasing. */
  lemma UpdatesPreserveIncreasing(ts: seq<Task>, id: Int64, s: TaskStatus, d: string)
    requires IdsIncreasing(ts)
    ensures IdsIncreasing(WithStatusSet(ts, id, s))
    ensures IdsIncreasing(WithTaskSet(ts, id, d))
  {
  }

  /** Deleting an absent ID returns the sequence unchanged. */
  lemma DeleteAbsent(ts: seq<Task>, id: Int64)
    requires forall i :: 0 <= i < |ts| ==> ts[i].id != id
    ensures Without(ts, id) == ts
  {
    FilterKeepsAll(ts, OtherThan(id));
  }

  /** With unique IDs, deleting a present ID removes exactly that task and keeps the
      others in order, so the length drops by one. */
  lemma DeleteRemovesExactlyOne(ts: seq<Task>, k: nat)
    requires IdsUnique(ts)
    requires k < |ts|
    ensures Without(ts, ts[k].id) == ts[..k] + ts[k + 1..]
    ensures |Without(ts, ts[k].id)| == |ts| - 1
  {
    var keep := OtherThan(ts[k].id);
    var before, after := ts[..k], ts[k + 1..];
    assert ts == before + [ts[k]] + after;
    forall i | 0 <= i < |before| ensures keep(before[i]) {
      assert before[i] == ts[i];
    }
    forall i | 0 <= i < |after| ensures keep(after[i]) {
      assert after[i] == ts[k + 1 + i];
    }
    FilterDropsOne(before, ts[k], after, keep);
  }

  /** At the `int64` maximum the new ID wraps around: a list running from the minimum
      ID to the maximum one gets its first task's ID again. Such a list can have
      increasing IDs, as the two-task witness shows. */
  lemma WrapAtMaximumReusesId(ts: seq<Task>, description: string)
    requires ts != [] && ts[0].id == MinInt64 && ts[|ts| - 1].id == MaxInt64
    ensures NewTask(ts, description).id == ts[0].id
    ensures var w := [Task(MinInt64, "a", StatusTodo), Task(MaxInt64, "b", StatusTodo)];
      IdsIncreasing(w) && NewTask(w, description).id == w[0].id
  {
  }

  /** IDs come from the last task, not from a counter: deleting the last task and then
      adding mints the deleted task's ID again. */
  lemma IdReusedAfterDeletingLast(p: seq<Task>, last: Task, description: string)
    requires IdsIncreasing(p + [last])
    requires p != [] && last.id == p[|p| - 1].id + 1
    ensures NewTask(Without(p + [last], last.id), description).id == last.id
  {
    IncreasingIdsAreUnique(p + [last]);
    DeleteRemovesExactlyOne(p + [last], |p|);
    assert (p + [last])[..|p|] == p;
  }
}
