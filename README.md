# Task store of task-cli, modelled in Dafny

task-cli is a command-line task tracker. It keeps an ordered list of tasks. Each task has a 64-bit ID, a description and a status string. The list lives in a `TaskStore` object, and each command changes it through a few operations:

- `AddTask` appends a `todo` task. Its ID is the last task's ID plus one, or 1 when the store is empty.
- `UpdateStatusTask` turns an integer code into a status. It then rewrites the first task that has the given ID and differs from that status.
- `UpdateTask` does the same for the description.
- `DeleteTask` returns a filtered copy and leaves the store alone. The `delete` command assigns that copy back to the store.
- `list` shows either every task or only the tasks whose status string equals its argument.

The project has three modules:

- `Seqs` (`seqs.dfy`) defines `Filter`, an order-preserving selection, with its lemmas. Both delete and the `list` filter are specified by it.
- `Models` (`task.dfy`) models `task_cli/models/task.go`. `Task` is a datatype. `TaskStore` is a class whose field `Tasks: seq<Task>` is reassigned by its methods. Each method is proved against a pure specification function (`NewTask`, `WithStatusSet`, `WithTaskSet`, `Without`), and lemmas prove the properties of those functions.
- `Cmd` (`command.dfy`) models the handlers of `task_cli/cmd/command.go` as methods that call into a shared store. The result of parsing an ID argument is an `Option<Int64>` input: `None` means parsing failed.

Modelling choices:

- Go's `int64` is the subset type `Int64`. Go's `+` on `int64` wraps around, and `Wrap64` models this explicitly. So `AddTask` has no precondition: after a task with ID `MaxInt64`, the next ID is `MinInt64`. The lemmas about increasing IDs assume that the last ID is below the maximum.
- A status is a string, matching Go's `type TaskStatus string`. This keeps the `list` filter's behaviour for any string. `IsKnownStatus` names the three constants.

How new IDs behave in the code:

- A new ID is the last task's ID plus one, not the largest ID plus one (`NextId`, `NextIdDependsOnlyOnLast`).
- IDs can be reused. Deleting the last task and then adding gives back its ID when the last two IDs were consecutive (`IdReusedAfterDeletingLast`).
- A new ID never collides with a stored one while IDs strictly increase along the list and stay below the `int64` maximum. In that case the new ID is above every stored ID (`NewTask`, `NextIdAboveAll`). Add, delete and both updates keep IDs increasing (`AddPreservesIncreasing`, `DeletePreservesIncreasing`, `UpdatesPreserveIncreasing`). A collision needs a list that is already out of order, or one whose last ID is `MaxInt64`: the next ID then wraps to `MinInt64` (`WrapAtMaximumReusesId`).

## Model

| member | source | states |
|---|---|---|
| `Models.Wrap64` | task_cli/models/task.go:109 | int64 addition: identity inside the int64 range, and the result is congruent to the exact sum modulo 2^64 |
| `Models.StatusForCode` | task_cli/models/task.go:125-130 | code 1 gives in-progress, code 2 gives done, and exactly the other codes give todo; the result is always a named status |
| `Models.NextId` | task_cli/models/task.go:106-110 | the new ID is 1 on an empty store, otherwise the last task's ID + 1; it wraps to the int64 minimum after the maximum |
| `Models.NewTask` | task_cli/models/task.go:106-116 | the created task is todo with the given description; while IDs increase and the last one is below the int64 maximum, its ID is above every stored ID |
| `Models.AddedAll` | task_cli/models/task.go:102-119 | adding once per description grows the list by exactly that many tasks |
| `Models.StaleStatusIndex` | task_cli/models/task.go:132-139 | the index the status loop stops at is the first task with that ID whose status differs, or the length when there is none |
| `Models.WithStatusSet` | task_cli/models/task.go:132-139 | same length; IDs and descriptions are unchanged; at most one task changes, and it has that ID and gets the new status; the first task with that ID and another status is the one that gets it; an absent ID changes nothing; afterwards some task with that ID has the new status |
| `Models.StaleTaskIndex` | task_cli/models/task.go:146-153 | the index the description loop stops at is the first task with that ID whose description differs, or the length when there is none |
| `Models.WithTaskSet` | task_cli/models/task.go:146-153 | same length; IDs and statuses are unchanged; at most one task changes, and it has that ID and gets the new description; the first task with that ID and another description is the one that gets it; an absent ID changes nothing; afterwards some task with that ID has the new description |
| `Seqs.Filter` | task_cli/models/task.go:169-176 | the selection is no longer than the input, and an element is in it exactly when it is in the input and kept |
| `Models.Without` | task_cli/models/task.go:165-177 | a task is in the result exactly when it is in the store and has a different ID; order is preserved because the result is a `Filter` |
| `Models.TaskStore.NewTaskStore` | task_cli/models/task.go:31-36 | a new store is empty and keeps the given file path |
| `Models.TaskStore.AddTask` | task_cli/models/task.go:102-120 | returns the new task and appends exactly it; earlier tasks are unchanged |
| `Models.TaskStore.UpdateStatusTask` | task_cli/models/task.go:122-140 | the index loop with early break leaves the list equal to `WithStatusSet` for the mapped status |
| `Models.TaskStore.UpdateTask` | task_cli/models/task.go:142-154 | the index loop with early break leaves the list equal to `WithTaskSet` |
| `Models.TaskStore.DeleteTask` | task_cli/models/task.go:165-177 | the appending loop returns `Without(Tasks, id)`; the store is not modified |
| `Models.IncreasingIdsAreUnique` | task_cli/models/task.go:106-110 | strictly increasing IDs are pairwise distinct |
| `Models.NextIdDependsOnlyOnLast` | task_cli/models/task.go:107-110 | the new ID is the same whatever precedes the last task |
| `Models.NextIdAboveAll` | task_cli/models/task.go:106-110 | with increasing IDs and the last ID below the maximum, the new ID exceeds every stored ID |
| `Models.AddPreservesIncreasing` | task_cli/models/task.go:106-118 | adding keeps IDs strictly increasing |
| `Models.AddedAllNumbers` | task_cli/models/task.go:102-119 | adding to a list numbered 1..n keeps that prefix and numbers the new todo tasks n+1, n+2, ... in call order |
| `Models.AddsFromEmpty` | task_cli/models/task.go:102-119 | N adds to an empty store give exactly the tasks {i, description i, todo} for i = 1..N, in call order |
| `Models.FilterPreservesIncreasing` | task_cli/models/task.go:171-175 | any order-preserving selection keeps IDs strictly increasing |
| `Models.DeletePreservesIncreasing` | task_cli/models/task.go:165-177 | deleting keeps IDs strictly increasing |
| `Models.UpdatesPreserveIncreasing` | task_cli/models/task.go:122-153 | both in-place updates keep IDs strictly increasing |
| `Models.DeleteAbsent` | task_cli/models/task.go:165-177 | deleting an absent ID returns a list equal to the input |
| `Models.DeleteRemovesExactlyOne` | task_cli/models/task.go:165-177 | with unique IDs, deleting the ID at index k returns the input without element k, in order, one shorter |
| `Models.WrapAtMaximumReusesId` | task_cli/models/task.go:107-109 | any list whose first ID is the int64 minimum and whose last ID is the maximum gets, on the next add, the ID of its first task again; such a list can have increasing IDs |
| `Models.IdReusedAfterDeletingLast` | task_cli/models/task.go:106-110 | when the last two IDs are consecutive, deleting the last task and then adding mints the deleted ID again |
| `Cmd.WithStatus` | task_cli/cmd/command.go:16-24 | a task is listed exactly when it is in the store and its status string equals the filter |
| `Cmd.UnknownFilterSelectsNothing` | task_cli/cmd/command.go:21 | when every status is a named one, a filter naming none of them lists nothing |
| `Cmd.ListAll` | task_cli/cmd/command.go:13-30 | no argument lists the whole list unchanged; an argument lists `WithStatus` of it; the store is not modified |
| `Cmd.MarkTodo` | task_cli/cmd/command.go:36-50 | a parse failure changes nothing; otherwise the status update runs with code 0, which means todo |
| `Cmd.MarkInProgress` | task_cli/cmd/command.go:56-70 | a parse failure changes nothing; otherwise the status update runs with code 1, which means in-progress |
| `Cmd.MarkDone` | task_cli/cmd/command.go:76-90 | a parse failure changes nothing; otherwise the status update runs with code 2, which means done |
| `Cmd.DeleteCmd` | task_cli/cmd/command.go:96-111 | a parse failure changes nothing; otherwise the list becomes `Without` of the old list, no task has the ID any more, and increasing IDs stay increasing |
| `Cmd.UpdateCmd` | task_cli/cmd/command.go:117-132 | a parse failure changes nothing; otherwise the list becomes `WithTaskSet` of the old list |
| `Cmd.AddCmd` | task_cli/cmd/command.go:138-152 | appends the new task; the new ID is announced only when the following save succeeds |
| `Cmd.AddEach` | task_cli/cmd/command.go:138-152 | running `add` once per description, in order, leaves the list equal to `AddedAll` of the old list, so from an empty store the IDs are 1..N (`AddsFromEmpty`) |
| `Cmd.BuyMilkWalkDog` | task_cli/cmd/command.go:76-152 | from an empty store: add "buy milk", add "walk dog", mark 1 done, delete 1; exactly {2, "walk dog", todo} remains |

## Left out

- `Load` and `Save` (task_cli/models/task.go:56-100) are not modelled. They do file I/O and JSON encoding. After every mutating command Save only reports its error, so the in-memory effect of a command holds whatever Save does. A failed Save leaves the file either as it was (when it cannot be opened) or truncated or partly written (`os.WriteFile` truncates before writing). An empty file then loads as an empty store, and a partly written one makes the next start panic. Every mutating command prints the error. Of these effects only `add`'s missing confirmation is modelled, through the parameter `saveFailed` of `AddCmd`.
- `GetConfigPath` (task_cli/models/task.go:43-54) is not modelled. It asks the operating system for the configuration directory and creates it.
- The `sync.Mutex` and every Lock/Unlock pair are not modelled. They only serialise calls within one process, and the model is single-threaded.
- `PrintTask` and `addNotifyTask` are not modelled. They only write to standard output. `ListAll` returns the tasks that would be printed, and `AddCmd` returns the ID that would be announced.
- `AddTask`'s error result is always nil, so it is omitted.
- `strconv.ParseInt` is not modelled. Its result is an `Option<Int64>` input.
- cobra's argument-count checks are not modelled. `ListAll` takes the argument list and reads it the same way as the code.
- Slice aliasing is not captured. In Go, `list` without a filter shares the store's backing array. The model uses sequence values, and the shared slice is only printed anyway.
- task_cli/cmd/root.go is not part of this model: cobra wiring, building the global store, and the panic when the first load fails. task_cli/main.go is not part of this model either.
