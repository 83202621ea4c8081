/** The task record and the column shape of the board (src/types/index.ts). */
module Types {

  datatype Option<+T> = None | Some(value: T)

  /** `PriorityLevel`: a closed union of three literals. */
  datatype Priority = Low | Medium | High

  /** `TaskStatus`: a closed union of three literals; it decides the column. */
  datatype Status = Todo | InProgress | Done

  /** A task. Every field is always present; only `dueDate` may be null. */
  datatype Task = Task(
    id: string,
    title: string,
    description: string,
    priority: Priority,
    status: Status,
    dueDate: Option<string>,
    createdAt: string)

  /** `ColumnType`: a column is keyed by a status value. */
  datatype Column = Column(id: Status, title: string, tasks: seq<Task>)

  /** The string literal that stands for each priority in the union type. */
  function PriorityName(p: Priority): (r: string)
    ensures r in {"low", "medium", "high"}
  {
    match p
    case Low => "low"
    case Medium => "medium"
    case High => "high"
  }

  /** The literals are pairwise distinct, so the union and the datatype agree. */
  lemma PriorityNameInjective(p: Priority, q: Priority)
    ensures PriorityName(p) == PriorityName(q) <==> p == q
  {
  }
}
