/** Construction, seeding, persistence and grouping helpers
    (src/utils/taskUtils.ts). */
module TaskUtils {
  import opened Types

  /** What one `createTask` call draws from outside: a fresh id from the
      random generator and the current time. Both are inputs here. */
  datatype Stamp = Stamp(id: string, createdAt: string)

  /** `createTask`: a full record from its arguments, with priority medium,
      no due date and status todo when those are omitted. */
  function CreateTask(stamp: Stamp, title: string, description: string,
                      priority: Priority := Medium, dueDate: Option<string> := None,
                      status: Status := Todo): (t: Task)
    ensures t.id == stamp.id && t.createdAt == stamp.createdAt
    ensures t.title == title && t.description == description
    ensures t.priority == priority && t.dueDate == dueDate && t.status == status
  {
    Task(stamp.id, title, description, priority, status, dueDate, stamp.createdAt)
  }

  /** A task created with only a title and a description carries the defaults. */
  lemma CreateTaskDefaults(stamp: Stamp, title: string, description: string)
    ensures CreateTask(stamp, title, description)
         == CreateTask(stamp, title, description, Medium, None, Todo)
    ensures CreateTask(stamp, title, description).priority == Medium
    ensures CreateTask(stamp, title, description).dueDate == None
    ensures CreateTask(stamp, title, description).status == Todo
  {
  }

  // ---------------------------------------------------------------------------
  // The seed list and the stored list

  /** The number of tasks in the seed list. */
  const SeedSize := 5

  /** The five example tasks shown when nothing is stored; `stamps[i]` is what
      the i-th `createTask` call drew for its id and creation time. */
  function SeedTasks(stamps: seq<Stamp>): (r: seq<Task>)
    requires |stamps| == SeedSize
    ensures |r| == SeedSize
    ensures forall i :: 0 <= i < SeedSize ==>
              r[i].id == stamps[i].id && r[i].createdAt == stamps[i].createdAt
  {
    [ CreateTask(stamps[0], "Complete project proposal",
                 "Write and submit the proposal for the new client project.",
                 High, Some("2025-05-20"), Todo),
      CreateTask(stamps[1], "Design meeting",
                 "Discuss the new design system with the team.",
                 Medium, Some("2025-05-15"), Todo),
      CreateTask(stamps[2], "Update documentation",
                 "Update the API documentation with the new endpoints.",
                 Low, Some("2025-05-25"), InProgress),
      CreateTask(stamps[3], "Code review",
                 "Review pull request #42 for the dashboard feature.",
                 Medium, Some("2025-05-14"), InProgress),
      CreateTask(stamps[4], "Weekly report",
                 "Complete the weekly progress report for stakeholders.",
                 High, Some("2025-05-12"), Done) ]
  }

  /** The key under which the whole list is stored. */
  const TasksKey := "tasks"

  /** The browser's key-value store. A slot holds a decoded task list. */
  class LocalStorage {
    var items: map<string, seq<Task>>

    constructor (items: map<string, seq<Task>>)
      ensures this.items == items
    {
      this.items := items;
    }
  }

  /** What `getInitialTasks` returns for a store whose slots are `items`. */
  function InitialTasks(items: map<string, seq<Task>>, stamps: seq<Stamp>): (r: seq<Task>)
    requires |stamps| == SeedSize
    ensures TasksKey in items ==> r == items[TasksKey]
    ensures TasksKey !in items ==> |r| == SeedSize
    ensures TasksKey !in items ==> forall i :: 0 <= i < SeedSize ==> r[i].id == stamps[i].id
  {
    if TasksKey in items then items[TasksKey] else SeedTasks(stamps)
  }

  /** `getInitialTasks`: the stored list if there is one, else the seed list. */
  method GetInitialTasks(store: LocalStorage, stamps: seq<Stamp>) returns (tasks: seq<Task>)
    requires |stamps| == SeedSize
    ensures tasks == InitialTasks(store.items, stamps)
  {
    if TasksKey in store.items {
      tasks := store.items[TasksKey];
    } else {
      tasks := SeedTasks(stamps);
    }
  }

  /** `saveTasks`: overwrite the `tasks` slot with the whole list. */
  method SaveTasks(store: LocalStorage, tasks: seq<Task>)
    modifies store
    ensures store.items == old(store.items)[TasksKey := tasks]
  {
    store.items := store.items[TasksKey := tasks];
  }

  /** Saving a list and loading it again returns that list, in order, and
      not the seed, whatever the store held before. */
  lemma LoadAfterSave(items: map<string, seq<Task>>, tasks: seq<Task>, stamps: seq<Stamp>)
    requires |stamps| == SeedSize
    ensures InitialTasks(items[TasksKey := tasks], stamps) == tasks
  {
  }

  /** With nothing stored, the first load yields the five seed tasks with
      these titles, priorities and statuses, in this order. */
  lemma FirstLoadIsSeed(items: map<string, seq<Task>>, stamps: seq<Stamp>)
    requires |stamps| == SeedSize
    requires TasksKey !in items
    ensures var r := InitialTasks(items, stamps);
      && |r| == 5
      && r[0].title == "Complete project proposal" && r[0].priority == High && r[0].status == Todo
      && r[1].title == "Design meeting" && r[1].priority == Medium && r[1].status == Todo
      && r[2].title == "Update documentation" && r[2].priority == Low && r[2].status == InProgress
      && r[3].title == "Code review" && r[3].priority == Medium && r[3].status == InProgress
      && r[4].title == "Weekly report" && r[4].priority == High && r[4].status == Done
  {
  }

  /** Seed ids are as distinct as the generated ids they come from. */
  lemma SeedIdsDistinct(stamps: seq<Stamp>)
    requires |stamps| == SeedSize
    requires forall i, j :: 0 <= i < j < |stamps| ==> stamps[i].id != stamps[j].id
    ensures DistinctIds(SeedTasks(stamps))
  {
  }

  // ---------------------------------------------------------------------------
  // Ids

  /** Some task in the list has this id (`tasks.some(t => t.id === id)`). */
  function HasId(tasks: seq<Task>, id: string): (b: bool)
    ensures b <==> exists t :: t in tasks && t.id == id
  {
    exists i :: 0 <= i < |tasks| && tasks[i].id == id
  }

  /** No two tasks of the list share an id. */
  predicate DistinctIds(tasks: seq<Task>) {
    forall i, j :: 0 <= i < j < |tasks| ==> tasks[i].id != tasks[j].id
  }

  // ---------------------------------------------------------------------------
  // Priority colours

  /** `getPriorityColor`: the class name is the priority's literal after a
      fixed prefix. The `default` branch is unreachable for a typed priority. */
  function PriorityColor(p: Priority): (r: string)
    ensures r == "bg-priority-" + PriorityName(p)
  {
    match p
    case Low => "bg-priority-low"
    case Medium => "bg-priority-medium"
    case High => "bg-priority-high"
  }

  /** Distinct priorities get distinct class names. */
  lemma PriorityColorInjective(p: Priority, q: Priority)
    ensures PriorityColor(p) == PriorityColor(q) <==> p == q
  {
  }

  // ---------------------------------------------------------------------------
  // Grouping by status

  /** `tasks.filter(task => task.status === s)`. */
  function WithStatus(tasks: seq<Task>, s: Status): (r: seq<Task>)
    ensures |r| <= |tasks|
    ensures forall i :: 0 <= i < |r| ==> r[i].status == s
  {
    if tasks == [] then []
    else (if tasks[0].status == s then [tasks[0]] else []) + WithStatus(tasks[1..], s)
  }

  /** The filter keeps exactly the tasks of status `s`. */
  lemma {:induction false} WithStatusMembers(tasks: seq<Task>, s: Status)
    ensures forall t :: t in WithStatus(tasks, s) <==> t in tasks && t.status == s
  {
    if tasks != [] {
      WithStatusMembers(tasks[1..], s);
      assert tasks == [tasks[0]] + tasks[1..];
    }
  }

  /** Filtering distributes over concatenation: relative order is kept. */
  lemma {:induction false} WithStatusAppend(a: seq<Task>, b: seq<Task>, s: Status)
    ensures WithStatus(a + b, s) == WithStatus(a, s) + WithStatus(b, s)
  {
    if a != [] {
      assert (a + b)[1..] == a[1..] + b;
      WithStatusAppend(a[1..], b, s);
    } else {
      assert a + b == b;
    }
  }

  /** A list whose every task has status `s` passes the filter unchanged. */
  lemma {:induction false} WithStatusAll(tasks: seq<Task>, s: Status)
    requires forall i :: 0 <= i < |tasks| ==> tasks[i].status == s
    ensures WithStatus(tasks, s) == tasks
  {
    if tasks != [] {
      WithStatusAll(tasks[1..], s);
    }
  }

  /** `Record<TaskStatus, Task[]>`: one list per status. */
  datatype Groups = Groups(todo: seq<Task>, inProgress: seq<Task>, done: seq<Task>) {
    function Get(s: Status): seq<Task> {
      match s
      case Todo => todo
      case InProgress => inProgress
      case Done => done
    }
  }

  /** `groupTasksByStatus`: each group holds exactly the tasks of its status. */
  function GroupTasksByStatus(tasks: seq<Task>): (g: Groups)
    ensures forall s: Status, t: Task :: t in g.Get(s) <==> t in tasks && t.status == s
  {
    WithStatusMembers(tasks, Todo);
    WithStatusMembers(tasks, InProgress);
    WithStatusMembers(tasks, Done);
    Groups(WithStatus(tasks, Todo), WithStatus(tasks, InProgress), WithStatus(tasks, Done))
  }

  /** Grouping a concatenation concatenates the groups: no reordering. */
  lemma GroupAppend(a: seq<Task>, b: seq<Task>, s: Status)
    ensures GroupTasksByStatus(a + b).Get(s)
         == GroupTasksByStatus(a).Get(s) + GroupTasksByStatus(b).Get(s)
  {
    WithStatusAppend(a, b, s);
  }

  /** A list none of whose tasks has status `s` filters to nothing. */
  lemma {:induction false} WithStatusNone(tasks: seq<Task>, s: Status)
    requires forall i :: 0 <= i < |tasks| ==> tasks[i].status != s
    ensures WithStatus(tasks, s) == []
  {
    if tasks != [] {
      WithStatusNone(tasks[1..], s);
    }
  }

  /** Every task passes exactly one of the three status filters. */
  lemma {:induction false} WithStatusPartition(tasks: seq<Task>)
    ensures multiset(WithStatus(tasks, Todo)) + multiset(WithStatus(tasks, InProgress))
          + multiset(WithStatus(tasks, Done)) == multiset(tasks)
  {
    if tasks != [] {
      var x, rest := tasks[0], tasks[1..];
      WithStatusPartition(rest);
      assert tasks == [x] + rest;
      assert multiset(tasks) == multiset{x} + multiset(rest);
      if x.status == Todo {
        assert WithStatus(tasks, Todo) == [x] + WithStatus(rest, Todo);
        assert WithStatus(tasks, InProgress) == WithStatus(rest, InProgress);
        assert WithStatus(tasks, Done) == WithStatus(rest, Done);
      } else if x.status == InProgress {
        assert WithStatus(tasks, Todo) == WithStatus(rest, Todo);
        assert WithStatus(tasks, InProgress) == [x] + WithStatus(rest, InProgress);
        assert WithStatus(tasks, Done) == WithStatus(rest, Done);
      } else {
        assert WithStatus(tasks, Todo) == WithStatus(rest, Todo);
        assert WithStatus(tasks, InProgress) == WithStatus(rest, InProgress);
        assert WithStatus(tasks, Done) == [x] + WithStatus(rest, Done);
      }
    }
  }

  /** The groups partition the list: together they hold every task exactly as
      often as the list does, so the sizes add up to the list's length. */
  lemma GroupPartition(tasks: seq<Task>)
    ensures var g := GroupTasksByStatus(tasks);
      multiset(g.todo) + multiset(g.inProgress) + multiset(g.done) == multiset(tasks)
    ensures var g := GroupTasksByStatus(tasks);
      |g.todo| + |g.inProgress| + |g.done| == |tasks|
  {
    var g := GroupTasksByStatus(tasks);
    WithStatusPartition(tasks);
    assert |multiset(g.todo) + multiset(g.inProgress) + multiset(g.done)| == |multiset(tasks)|;
  }

  /** The seed list groups as two todo, two in progress and one done. */
  lemma SeedGroupSizes(stamps: seq<Stamp>)
    requires |stamps| == SeedSize
    ensures var g := GroupTasksByStatus(SeedTasks(stamps));
      |g.todo| == 2 && |g.inProgress| == 2 && |g.done| == 1
  {
    var r := SeedTasks(stamps);
    var a, b, c := r[..2], r[2..4], r[4..];
    assert r == a + b + c;
    WithStatusAll(a, Todo);
    WithStatusNone(b, Todo);
    WithStatusNone(c, Todo);
    WithStatusAppend(a + b, c, Todo);
    WithStatusAppend(a, b, Todo);
    WithStatusNone(a, InProgress);
    WithStatusAll(b, InProgress);
    WithStatusNone(c, InProgress);
    WithStatusAppend(a + b, c, InProgress);
    WithStatusAppend(a, b, InProgress);
    WithStatusNone(a, Done);
    WithStatusNone(b, Done);
    WithStatusAll(c, Done);
    WithStatusAppend(a + b, c, Done);
    WithStatusAppend(a, b, Done);
  }
}
