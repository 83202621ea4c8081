# Task board core, modelled in Dafny

This project models the core of a single-user task board. Tasks sit in
three fixed status columns (To Do, In Progress, Done). They can be created,
edited, deleted and dragged between columns, and the list is kept in the
browser's local storage between sessions.

The model is in three modules, one per source file:

- `types.dfy` (module `Types`) holds the task record and the column shape
  from `src/types/index.ts`. `Priority` and `Status` are closed
  three-constructor datatypes. `Task` has seven fields, and only `dueDate`
  is optional (`Option<string>`). A `Column` is keyed by a `Status`.
- `task_utils.dfy` (module `TaskUtils`) holds the helpers from
  `src/utils/taskUtils.ts`:
  - `createTask` with its default arguments;
  - the five-task seed list;
  - `getInitialTasks` and `saveTasks` against a `LocalStorage` object that
    stands in for the browser's store;
  - `getPriorityColor`;
  - `groupTasksByStatus`, built on the status filter `WithStatus`.
- `task_board.dfy` (module `TaskBoard`) holds the `TaskBoard` component.
  - Each handler's new list is a pure function: `Upsert` for
    `handleSaveTask`, `Remove` for `handleDeleteTask`, `Move` for
    `handleDrop`.
  - `Columns` is the three-column projection.
  - The class `Board` holds the `tasks` state and a reference to the store.
    Its methods apply one of the functions above, then run the
    save-on-change effect.

Ids and creation times come from a random generator and the clock in the
source. Here they are inputs: a `Stamp` carries the id and `createdAt`
that one `createTask` call would draw.

The model follows the code as written. No operation raises an error: saving
with an id already present replaces the task, and deleting or moving an id
that no task has leaves the list unchanged. In detail:
- A status outside the three values cannot be expressed: the parameter is
  typed.
- A stored list that fails to parse is not recovered from. The source's
  `JSON.parse` would throw, and this model has no such state (see below).
- A title may be empty: `createTask` does not check it.
- The list is saved only when it is non-empty, not after every change.
  After the last task is deleted, the store keeps the previous list.

## Model

| member | source | states |
|---|---|---|
| Types.PriorityName | src/types/index.ts:2 | each priority is one of the three literals "low", "medium", "high" |
| Types.PriorityNameInjective | src/types/index.ts:2 | the three priority literals are pairwise distinct, so the union and the datatype are in one-to-one correspondence |
| TaskBoard.StatusIndex | src/components/TaskBoard.tsx:73-77 | every status has a position below 3 in the column order |
| TaskBoard.StatusOrderBijective | src/components/TaskBoard.tsx:73-77 | column positions and statuses correspond one-to-one, so a status picks out exactly one column |
| TaskUtils.CreateTask | src/utils/taskUtils.ts:10-26 | the record's title, description, priority, due date and status are the arguments; its id and creation time are the ones drawn for the call |
| TaskUtils.CreateTaskDefaults | src/utils/taskUtils.ts:13-15 | omitting the last three arguments gives priority medium, no due date and status todo |
| TaskUtils.SeedTasks | src/utils/taskUtils.ts:36-72 | the seed list has five tasks, and the i-th carries the i-th generated id and timestamp |
| TaskUtils.LocalStorage.constructor | src/utils/taskUtils.ts:30 | the stand-in for the browser's store starts out holding exactly the given slots, each a decoded task list |
| TaskUtils.InitialTasks | src/utils/taskUtils.ts:29-73 | the load result is the list stored under "tasks" when that slot exists; otherwise it is five tasks carrying the five drawn ids in order |
| TaskUtils.GetInitialTasks | src/utils/taskUtils.ts:29-73 | returns the list stored under "tasks" when there is one, and the seed list otherwise |
| TaskUtils.SaveTasks | src/utils/taskUtils.ts:76-78 | overwrites the "tasks" slot with the whole list and leaves every other slot as it was |
| TaskUtils.LoadAfterSave | src/utils/taskUtils.ts:30-33 | loading after saving a list returns that list in order, whatever the store held before, and never the seed |
| TaskUtils.FirstLoadIsSeed | src/utils/taskUtils.ts:36-72 | with nothing stored, the load gives exactly five tasks: "Complete project proposal" (high, todo), "Design meeting" (medium, todo), "Update documentation" (low, inProgress), "Code review" (medium, inProgress), "Weekly report" (high, done) |
| TaskUtils.SeedIdsDistinct | src/utils/taskUtils.ts:36-72 | the seed tasks have distinct ids whenever the five generated ids are distinct |
| TaskUtils.HasId | src/components/TaskBoard.tsx:38 | `tasks.some(t => t.id === id)` holds exactly when some task in the list carries the id |
| TaskUtils.PriorityColor | src/utils/taskUtils.ts:93-104 | the class name for a priority is "bg-priority-" followed by that priority's literal; the function is total |
| TaskUtils.PriorityColorInjective | src/utils/taskUtils.ts:93-104 | two priorities get the same class name exactly when they are equal |
| TaskUtils.WithStatus | src/utils/taskUtils.ts:109-111 | the status filter is no longer than its input, and every task it keeps has the requested status |
| TaskUtils.WithStatusMembers | src/utils/taskUtils.ts:109-111 | a task is kept by the status filter exactly when it is in the input and has that status |
| TaskUtils.WithStatusAppend | src/utils/taskUtils.ts:109-111 | filtering a concatenation concatenates the filtered parts, so relative order is kept |
| TaskUtils.WithStatusAll | src/utils/taskUtils.ts:109-111 | a list whose tasks all have the status passes the filter unchanged |
| TaskUtils.WithStatusNone | src/utils/taskUtils.ts:109-111 | a list none of whose tasks has the status filters to the empty list |
| TaskUtils.GroupTasksByStatus | src/utils/taskUtils.ts:107-113 | each group holds exactly the input tasks that have its status |
| TaskUtils.GroupAppend | src/utils/taskUtils.ts:107-113 | grouping a concatenation concatenates the groups, so each group keeps the input's relative order |
| TaskUtils.WithStatusPartition | src/utils/taskUtils.ts:107-113 | the three filters together hold each task exactly as many times as the input does |
| TaskUtils.GroupPartition | src/utils/taskUtils.ts:107-113 | the groups' multisets add up to the input's multiset and their sizes add up to its length: nothing lost, nothing duplicated |
| TaskUtils.SeedGroupSizes | src/utils/taskUtils.ts:36-72 | grouping the seed list gives sizes 2, 2 and 1 for todo, inProgress and done |
| TaskBoard.Replace | src/components/TaskBoard.tsx:40-42 | the map keeps the length; position i holds the saved task if the old task there had its id, and the old task otherwise |
| TaskBoard.IsUpdate | src/components/TaskBoard.tsx:38 | the update branch is taken exactly when the id is a non-empty (truthy) string and some task already carries it |
| TaskBoard.Upsert | src/components/TaskBoard.tsx:37-49 | with a non-empty id already present, every task with that id becomes the saved task, and length, order and ids stay as they were; otherwise the task is appended, growing the list by one; either way the task is in the result, and with a non-empty id it is the only version carrying that id |
| TaskBoard.UpsertKeepsIdsDistinct | src/components/TaskBoard.tsx:37-49 | saving a task with a non-empty id keeps ids distinct |
| TaskBoard.UpsertIdempotent | src/components/TaskBoard.tsx:37-49 | saving the same task with a non-empty id twice gives the same list as saving it once |
| TaskBoard.Remove | src/components/TaskBoard.tsx:51-54 | after deletion no task carries the id, and the list is no longer than before |
| TaskBoard.RemoveMembers | src/components/TaskBoard.tsx:51-54 | a task survives deletion exactly when it was in the list and carries another id |
| TaskBoard.RemoveAppend | src/components/TaskBoard.tsx:51-54 | deleting from a concatenation concatenates the results, so the remaining tasks keep their relative order |
| TaskBoard.RemoveAbsent | src/components/TaskBoard.tsx:51-54 | deleting an id that no task has leaves the list unchanged |
| TaskBoard.RemoveIdempotent | src/components/TaskBoard.tsx:51-54 | deleting twice has the same effect as deleting once |
| TaskBoard.RemoveKeepsIdsDistinct | src/components/TaskBoard.tsx:51-54 | deletion keeps ids distinct |
| TaskBoard.RemovePresentLength | src/components/TaskBoard.tsx:51-54 | with distinct ids, deleting a present id shortens the list by exactly one |
| TaskBoard.AddThenRemove | src/components/TaskBoard.tsx:37-54 | appending a task under a fresh id (empty or not) and then deleting that id restores the original list |
| TaskBoard.Move | src/components/TaskBoard.tsx:60-69 | the length is kept; each task whose id matches gets the new status and is otherwise the same record; every other task is unchanged |
| TaskBoard.MoveFrame | src/components/TaskBoard.tsx:60-69 | id, title, description, priority, due date and creation time of every task are unchanged, and only matching tasks change status |
| TaskBoard.MoveAbsent | src/components/TaskBoard.tsx:60-69 | dropping an id that no task has leaves the list unchanged |
| TaskBoard.MoveIdempotent | src/components/TaskBoard.tsx:60-69 | dropping the same task on the same column twice equals doing it once |
| TaskBoard.MoveKeepsIdsDistinct | src/components/TaskBoard.tsx:60-69 | a move keeps ids distinct |
| TaskBoard.MoveAppendedFresh | src/components/TaskBoard.tsx:60-69 | moving a task just appended under a fresh id changes only that last task's status |
| TaskBoard.ColumnTitle | src/components/TaskBoard.tsx:73-77 | each column title is one of "To Do", "In Progress", "Done" |
| TaskBoard.Columns | src/components/TaskBoard.tsx:73-77 | there are three columns in the order todo, inProgress, done, with titles "To Do", "In Progress", "Done", and each column's tasks are the matching group of `groupTasksByStatus` |
| TaskBoard.ColumnsPartition | src/components/TaskBoard.tsx:73-77 | every task is in the column of its status and in no other, and the column sizes add up to the number of tasks |
| TaskBoard.CreateThenMoveScenario | src/components/TaskBoard.tsx:37-77 | a task created as ("X", "") under any fresh id, empty or not, and dropped on Done shows up last in the Done column with title "X" and empty description, and in no other column |
| TaskBoard.Persisted | src/components/TaskBoard.tsx:21-25 | after the effect, a non-empty list is in the "tasks" slot; an empty list leaves the store exactly as it was; no other slot is added or changed |
| TaskBoard.PersistedReload | src/components/TaskBoard.tsx:21-25 | after the effect, a reload returns the current list when it is non-empty; when it is empty the store is untouched, so a reload returns what it returned before |
| TaskBoard.Board.constructor | src/components/TaskBoard.tsx:12-25 | mounting loads the initial list and saves it if it is non-empty; afterwards the store holds a list, and it is the current one whenever the current one is non-empty |
| TaskBoard.Board.SaveIfNonEmpty | src/components/TaskBoard.tsx:21-25 | the store is written with the current list exactly when the list is non-empty, and is left alone otherwise |
| TaskBoard.Board.HandleSaveTask | src/components/TaskBoard.tsx:37-49 | the new state is `Upsert` of the old one; the effect runs; ids stay distinct for a non-empty id; the store invariant is kept |
| TaskBoard.Board.HandleDeleteTask | src/components/TaskBoard.tsx:51-54 | the new state is `Remove` of the old one; the effect runs; ids stay distinct; the store invariant is kept |
| TaskBoard.Board.HandleDrop | src/components/TaskBoard.tsx:60-71 | the new state is `Move` of the old one; the effect runs; ids stay distinct; the store invariant is kept |

## Left out

- `generateId` uses `Math.random`, and `createdAt` comes from the clock. Both are inputs here (`Stamp`), so the model cannot say that generated ids are fresh. The id-preservation lemmas assume distinct ids as a precondition instead.
- `JSON.stringify` and `JSON.parse` are not modelled. A store slot holds a decoded task list, so the blob that `JSON.parse` would reject cannot arise, and the throw it would cause is not modelled.
- The source tests the stored string for truthiness. A string written by `saveTasks` is never empty, so "a list is stored" stands for "the string is truthy". An empty string put into the slot by someone else, which the source treats as absent, is not modelled.
- `formatDate` and the header date depend on `Date` parsing and locale formatting.
- Toast notifications, the modal's open state, `currentTask`, `handleAddTask`, `handleEditTask` and `handleDragStart` only drive presentation. `TaskModal.tsx`, `TaskColumn.tsx`, `TaskCard.tsx`, `Header.tsx` and `Index.tsx` are rendering and drag-and-drop plumbing. Only the transitions they trigger are modelled.
- React scheduling is not modelled. `handleSaveTask` tests the `tasks` captured at render, but its update maps over `prevTasks`. Here handlers run one at a time on the latest state, so the two are the same list.
- The save effect is modelled as running after every handler. Each handler builds a new array (`map`, `filter`, spread), so the dependency `[tasks]` always changes.
- The `default` branch of `getPriorityColor` is not modelled. No value of a typed priority can reach it.
