/** The board component's task list and the handlers that change it
    (src/components/TaskBoard.tsx). Each handler computes the new list with a
    pure function below; the `Board` class holds the list and runs the
    save-on-change effect after every change. */
module TaskBoard {
  import opened Types
  import opened TaskUtils

  // ---------------------------------------------------------------------------
  // handleSaveTask

  /** `prevTasks.map(t => t.id === task.id ? task : t)`. */
  function Replace(tasks: seq<Task>, task: Task): (r: seq<Task>)
    ensures |r| == |tasks|
    ensures forall i :: 0 <= i < |r| ==> r[i] == if tasks[i].id == task.id then task else tasks[i]
  {
    if tasks == [] then []
    else [if tasks[0].id == task.id then task else tasks[0]] + Replace(tasks[1..], task)
  }

  /** Whether `handleSaveTask` takes its update branch: the id is non-empty
      (a truthy string) and some task already carries it. */
  function IsUpdate(tasks: seq<Task>, task: Task): (b: bool)
    ensures b <==> task.id != "" && exists t :: t in tasks && t.id == task.id
  {
    task.id != "" && HasId(tasks, task.id)
  }

  /** The list after `handleSaveTask(task)`: an update replaces every task
      with that id and keeps length, order and ids; otherwise the task is
      appended. Either way the saved task is in the list afterwards. */
  function Upsert(tasks: seq<Task>, task: Task): (r: seq<Task>)
    ensures task in r
    ensures IsUpdate(tasks, task) ==>
              |r| == |tasks| && forall i :: 0 <= i < |r| ==> r[i].id == tasks[i].id
    ensures IsUpdate(tasks, task) ==>
              forall i :: 0 <= i < |r| ==> (r[i] == task || r[i] == tasks[i])
    ensures !IsUpdate(tasks, task) ==> |r| == |tasks| + 1 && r[..|tasks|] == tasks && r[|tasks|] == task
    ensures task.id != "" ==> forall i :: 0 <= i < |r| && r[i].id == task.id ==> r[i] == task
  {
    if IsUpdate(tasks, task) then Replace(tasks, task) else tasks + [task]
  }

  /** Saving a task with a non-empty id keeps ids distinct. */
  lemma UpsertKeepsIdsDistinct(tasks: seq<Task>, task: Task)
    requires DistinctIds(tasks)
    requires task.id != ""
    ensures DistinctIds(Upsert(tasks, task))
  {
  }

  /** Saving the same task twice is the same as saving it once. */
  lemma UpsertIdempotent(tasks: seq<Task>, task: Task)
    requires task.id != ""
    ensures Upsert(Upsert(tasks, task), task) == Upsert(tasks, task)
  {
  }

  // ---------------------------------------------------------------------------
  // handleDeleteTask

  /** `prevTasks.filter(task => task.id !== taskId)`. */
  function Remove(tasks: seq<Task>, id: string): (r: seq<Task>)
    ensures |r| <= |tasks|
    ensures forall i :: 0 <= i < |r| ==> r[i].id != id
  {
    if tasks == [] then []
    else (if tasks[0].id != id then [tasks[0]] else []) + Remove(tasks[1..], id)
  }

  /** Deletion keeps exactly the tasks with another id. */
  lemma {:induction false} RemoveMembers(tasks: seq<Task>, id: string)
    ensures forall t :: t in Remove(tasks, id) <==> t in tasks && t.id != id
  {
    if tasks != [] {
      RemoveMembers(tasks[1..], id);
      assert tasks == [tasks[0]] + tasks[1..];
    }
  }

  /** Deletion distributes over concatenation: relative order is kept. */
  lemma {:induction false} RemoveAppend(a: seq<Task>, b: seq<Task>, id: string)
    ensures Remove(a + b, id) == Remove(a, id) + Remove(b, id)
  {
    if a != [] {
      var x := a[0];
      assert (a + b)[0] == x;
      assert (a + b)[1..] == a[1..] + b;
      RemoveAppend(a[1..], b, id);
      assert Remove(a + b, id) == (if x.id != id then [x] else []) + Remove(a[1..] + b, id);
    } else {
      assert a + b == b;
    }
  }

  /** Deleting an id no task has leaves the list unchanged. */
  lemma {:induction false} RemoveAbsent(tasks: seq<Task>, id: string)
    requires !HasId(tasks, id)
    ensures Remove(tasks, id) == tasks
  {
    if tasks != [] {
      assert tasks[0].id != id;
      forall j | 0 <= j < |tasks[1..]| ensures tasks[1..][j].id != id {
        assert tasks[1..][j] == tasks[j + 1];
      }
      RemoveAbsent(tasks[1..], id);
      assert tasks == [tasks[0]] + tasks[1..];
    }
  }

  /** Deleting twice has the effect of deleting once. */
  lemma RemoveIdempotent(tasks: seq<Task>, id: string)
    ensures Remove(Remove(tasks, id), id) == Remove(tasks, id)
  {
    RemoveAbsent(Remove(tasks, id), id);
  }

  /** Deletion keeps ids distinct. */
  lemma {:induction false} RemoveKeepsIdsDistinct(tasks: seq<Task>, id: string)
    requires DistinctIds(tasks)
    ensures DistinctIds(Remove(tasks, id))
  {
    if tasks != [] {
      var x, rest := tasks[0], tasks[1..];
      assert DistinctIds(rest) by {
        forall i, j | 0 <= i < j < |rest| ensures rest[i].id != rest[j].id {
          assert rest[i] == tasks[i + 1] && rest[j] == tasks[j + 1];
        }
      }
      RemoveKeepsIdsDistinct(rest, id);
      RemoveMembers(rest, id);
      var tail := Remove(rest, id);
      if x.id != id {
        assert Remove(tasks, id) == [x] + tail;
        forall k | 0 <= k < |tail| ensures tail[k].id != x.id {
          assert tail[k] in rest;
          var j :| 0 <= j < |rest| && rest[j] == tail[k];
          assert tasks[j + 1] == tail[k];
        }
      } else {
        assert Remove(tasks, id) == tail;
      }
    }
  }

  /** With distinct ids, deleting a present id shortens the list by one. */
  lemma {:induction false} RemovePresentLength(tasks: seq<Task>, id: string)
    requires DistinctIds(tasks)
    requires HasId(tasks, id)
    ensures |Remove(tasks, id)| == |tasks| - 1
  {
    var x, rest := tasks[0], tasks[1..];
    assert DistinctIds(rest) by {
      forall i, j | 0 <= i < j < |rest| ensures rest[i].id != rest[j].id {
        assert rest[i] == tasks[i + 1] && rest[j] == tasks[j + 1];
      }
    }
    if x.id == id {
      forall j | 0 <= j < |rest| ensures rest[j].id != id {
        assert rest[j] == tasks[j + 1];
      }
      RemoveAbsent(rest, id);
    } else {
      assert HasId(rest, id) by {
        var j :| 0 <= j < |tasks| && tasks[j].id == id;
        assert rest[j - 1].id == id;
      }
      RemovePresentLength(rest, id);
    }
  }

  /** Appending a task under a fresh id and then deleting that id restores
      the list. */
  lemma AddThenRemove(tasks: seq<Task>, task: Task)
    requires !HasId(tasks, task.id)
    ensures Remove(Upsert(tasks, task), task.id) == tasks
  {
    assert Upsert(tasks, task) == tasks + [task];
    RemoveAppend(tasks, [task], task.id);
    RemoveAbsent(tasks, task.id);
  }

  // ---------------------------------------------------------------------------
  // handleDrop

  /** `prevTasks.map(task => task.id === taskId ? { ...task, status } : task)`:
      the matching tasks get the new status and nothing else changes. */
  function Move(tasks: seq<Task>, id: string, s: Status): (r: seq<Task>)
    ensures |r| == |tasks|
    ensures forall i :: 0 <= i < |r| ==>
              r[i] == if tasks[i].id == id then tasks[i].(status := s) else tasks[i]
  {
    if tasks == [] then []
    else [if tasks[0].id == id then tasks[0].(status := s) else tasks[0]] + Move(tasks[1..], id, s)
  }

  /** A move changes at most the status of a task: every other field of every
      task, and the order of the list, stay as they were. */
  lemma MoveFrame(tasks: seq<Task>, id: string, s: Status)
    ensures var r := Move(tasks, id, s);
      forall i :: 0 <= i < |r| ==>
        && r[i].id == tasks[i].id && r[i].title == tasks[i].title
        && r[i].description == tasks[i].description && r[i].priority == tasks[i].priority
        && r[i].dueDate == tasks[i].dueDate && r[i].createdAt == tasks[i].createdAt
        && r[i].status == (if tasks[i].id == id then s else tasks[i].status)
  {
  }

  /** Moving an id no task has leaves the list unchanged. */
  lemma MoveAbsent(tasks: seq<Task>, id: string, s: Status)
    requires !HasId(tasks, id)
    ensures Move(tasks, id, s) == tasks
  {
  }

  /** Dropping the same task on the same column twice equals doing it once. */
  lemma MoveIdempotent(tasks: seq<Task>, id: string, s: Status)
    ensures Move(Move(tasks, id, s), id, s) == Move(tasks, id, s)
  {
  }

  /** A move keeps ids distinct. */
  lemma MoveKeepsIdsDistinct(tasks: seq<Task>, id: string, s: Status)
    requires DistinctIds(tasks)
    ensures DistinctIds(Move(tasks, id, s))
  {
  }

  // ---------------------------------------------------------------------------
  // The `columns` projection

  /** The position of a status in the fixed column order todo, inProgress, done. */
  function StatusIndex(s: Status): (k: nat)
    ensures k < 3
  {
    match s
    case Todo => 0
    case InProgress => 1
    case Done => 2
  }

  /** The statuses in column order. */
  const StatusOrder: seq<Status> := [Todo, InProgress, Done]

  /** Each status sits at exactly one position of the column order, and each
      position holds exactly one status. */
  lemma StatusOrderBijective(s: Status, k: nat)
    requires k < |StatusOrder|
    ensures StatusOrder[k] == s <==> StatusIndex(s) == k
  {
  }

  /** The display title of the column for a status. */
  function ColumnTitle(s: Status): (r: string)
    ensures r in {"To Do", "In Progress", "Done"}
  {
    match s
    case Todo => "To Do"
    case InProgress => "In Progress"
    case Done => "Done"
  }

  /** `columns`: three columns in the order todo, inProgress, done, each with
      its title and the group of `groupTasksByStatus` for its status. */
  function Columns(tasks: seq<Task>): (r: seq<Column>)
    ensures |r| == 3
    ensures forall k :: 0 <= k < 3 ==>
              && r[k].id == StatusOrder[k]
              && r[k].title == ColumnTitle(StatusOrder[k])
              && r[k].tasks == GroupTasksByStatus(tasks).Get(StatusOrder[k])
  {
    [ Column(Todo, "To Do", WithStatus(tasks, Todo)),
      Column(InProgress, "In Progress", WithStatus(tasks, InProgress)),
      Column(Done, "Done", WithStatus(tasks, Done)) ]
  }

  /** Every task sits in the column of its status and in no other, and the
      column sizes add up to the number of tasks. */
  lemma ColumnsPartition(tasks: seq<Task>)
    ensures var cols := Columns(tasks);
      forall t, k :: t in tasks && 0 <= k < 3 ==> (t in cols[k].tasks <==> k == StatusIndex(t.status))
    ensures var cols := Columns(tasks);
      |cols[0].tasks| + |cols[1].tasks| + |cols[2].tasks| == |tasks|
  {
    var cols := Columns(tasks);
    GroupPartition(tasks);
    forall t, k | t in tasks && 0 <= k < 3
      ensures t in cols[k].tasks <==> k == StatusIndex(t.status)
    {
      assert cols[k].tasks == GroupTasksByStatus(tasks).Get(StatusOrder[k]);
      StatusOrderBijective(t.status, k);
    }
  }

  /** Dropping a task that was just appended under a fresh id changes the
      status of that task only. */
  lemma MoveAppendedFresh(tasks: seq<Task>, t: Task, s: Status)
    requires !HasId(tasks, t.id)
    ensures Move(tasks + [t], t.id, s) == tasks + [t.(status := s)]
  {
  }

  /** A task created as ("X", "") under a fresh id and then dropped on the
      done column shows up last in the done column, with its title and empty
      description, and in no other column. */
  lemma CreateThenMoveScenario(tasks: seq<Task>, stamp: Stamp)
    requires !HasId(tasks, stamp.id)
    ensures var t := CreateTask(stamp, "X", "");
      var cols := Columns(Move(Upsert(tasks, t), stamp.id, Done));
      && |cols[2].tasks| > 0
      && cols[2].tasks[|cols[2].tasks| - 1] == t.(status := Done)
      && cols[2].tasks[|cols[2].tasks| - 1].title == "X"
      && cols[2].tasks[|cols[2].tasks| - 1].description == ""
      && (forall u :: u in cols[0].tasks ==> u.id != stamp.id)
      && (forall u :: u in cols[1].tasks ==> u.id != stamp.id)
  {
    var t := CreateTask(stamp, "X", "");
    var t' := t.(status := Done);
    assert Upsert(tasks, t) == tasks + [t];
    MoveAppendedFresh(tasks, t, Done);
    var moved := tasks + [t'];
    WithStatusAppend(tasks, [t'], Done);
    WithStatusAll([t'], Done);
    WithStatusMembers(moved, Todo);
    WithStatusMembers(moved, InProgress);
  }

  // ---------------------------------------------------------------------------
  // The save-on-change effect

  /** The store after the effect has seen `tasks`: the list is written only
      when it is non-empty. */
  function Persisted(items: map<string, seq<Task>>, tasks: seq<Task>): (r: map<string, seq<Task>>)
    ensures tasks != [] ==> TasksKey in r && r[TasksKey] == tasks
    ensures tasks == [] ==> r == items
    ensures r.Keys == items.Keys + (if tasks != [] then {TasksKey} else {})
    ensures forall k :: k in items && k != TasksKey ==> r[k] == items[k]
  {
    if tasks != [] then items[TasksKey := tasks] else items
  }

  /** After the effect, reloading yields the list whenever it is non-empty;
      emptying the list leaves the store as it was, so a reload brings back
      the last non-empty list. */
  lemma PersistedReload(items: map<string, seq<Task>>, tasks: seq<Task>, stamps: seq<Stamp>)
    requires |stamps| == SeedSize
    ensures tasks != [] ==> InitialTasks(Persisted(items, tasks), stamps) == tasks
    ensures tasks == [] ==> InitialTasks(Persisted(items, tasks), stamps) == InitialTasks(items, stamps)
  {
  }

  // ---------------------------------------------------------------------------
  // The component

  /** The `TaskBoard` component's task state together with the store that its
      effects read and write. */
  class Board {
    var tasks: seq<Task>
    const storage: LocalStorage

    /** The store always holds a list, and it is the current one whenever the
        current one is non-empty. */
    ghost predicate Valid()
      reads this, storage
    {
      TasksKey in storage.items && (tasks != [] ==> storage.items[TasksKey] == tasks)
    }

    /** Mounting: the state starts empty (the effect skips it), then the
        initial list is loaded and the effect saves it if it is non-empty. */
    constructor (storage: LocalStorage, stamps: seq<Stamp>)
      requires |stamps| == SeedSize
      modifies storage
      ensures this.storage == storage
      ensures tasks == InitialTasks(old(storage.items), stamps)
      ensures storage.items == Persisted(old(storage.items), tasks)
      ensures Valid()
    {
      this.storage := storage;
      tasks := [];
      new;
      var initial := GetInitialTasks(storage, stamps);
      tasks := initial;
      SaveIfNonEmpty();
    }

    /** The effect on `[tasks]`: save the list when it is non-empty. */
    method SaveIfNonEmpty()
      modifies storage
      ensures storage.items == Persisted(old(storage.items), tasks)
    {
      if |tasks| > 0 {
        SaveTasks(storage, tasks);
      }
    }

    /** `handleSaveTask`. */
    method HandleSaveTask(task: Task)
      requires Valid()
      modifies this, storage
      ensures tasks == Upsert(old(tasks), task)
      ensures storage.items == Persisted(old(storage.items), tasks)
      ensures DistinctIds(old(tasks)) && task.id != "" ==> DistinctIds(tasks)
      ensures Valid()
    {
      if DistinctIds(tasks) && task.id != "" {
        UpsertKeepsIdsDistinct(tasks, task);
      }
      tasks := Upsert(tasks, task);
      SaveIfNonEmpty();
    }

    /** `handleDeleteTask`. */
    method HandleDeleteTask(taskId: string)
      requires Valid()
      modifies this, storage
      ensures tasks == Remove(old(tasks), taskId)
      ensures storage.items == Persisted(old(storage.items), tasks)
      ensures DistinctIds(old(tasks)) ==> DistinctIds(tasks)
      ensures Valid()
    {
      if DistinctIds(tasks) {
        RemoveKeepsIdsDistinct(tasks, taskId);
      }
      tasks := Remove(tasks, taskId);
      SaveIfNonEmpty();
    }

    /** `handleDrop`. */
    method HandleDrop(taskId: string, columnId: Status)
      requires Valid()
      modifies this, storage
      ensures tasks == Move(old(tasks), taskId, columnId)
      ensures storage.items == Persisted(old(storage.items), tasks)
      ensures DistinctIds(old(tasks)) ==> DistinctIds(tasks)
      ensures Valid()
    {
      if DistinctIds(tasks) {
        MoveKeepsIdsDistinct(tasks, taskId, columnId);
      }
      tasks := Move(tasks, taskId, columnId);
      SaveIfNonEmpty();
    }
  }
}
