/** The task record and its two enumerations, shared by the task service and the
    request validator: the literal values of `status` and `priority`, and the
    literal lists both validators test membership in. */
module TaskTypes {
  import opened JsPrelude

  datatype TaskStatus = Todo | InProgress | Review | Completed | Archived

  datatype TaskPriority = Low | Medium | High | Critical

  /** The list the validators call `includes` on for `status`. */
  const STATUS_NAMES: seq<string> := ["todo", "in_progress", "review", "completed", "archived"]

  /** The list the validators call `includes` on for `priority`. */
  const PRIORITY_NAMES: seq<string> := ["low", "medium", "high", "critical"]

  function StatusName(s: TaskStatus): string {
    match s
    case Todo => "todo"
    case InProgress => "in_progress"
    case Review => "review"
    case Completed => "completed"
    case Archived => "archived"
  }

  function PriorityName(p: TaskPriority): string {
    match p
    case Low => "low"
    case Medium => "medium"
    case High => "high"
    case Critical => "critical"
  }

  /** The status literal a string spells, if any. */
  function ParseStatus(s: string): (r: Option<TaskStatus>)
    ensures r.Some? <==> s in STATUS_NAMES
    ensures r.Some? ==> StatusName(r.value) == s
  {
    if s == "todo" then Some(Todo)
    else if s == "in_progress" then Some(InProgress)
    else if s == "review" then Some(Review)
    else if s == "completed" then Some(Completed)
    else if s == "archived" then Some(Archived)
    else None
  }

  /** The priority literal a string spells, if any. */
  function ParsePriority(s: string): (r: Option<TaskPriority>)
    ensures r.Some? <==> s in PRIORITY_NAMES
    ensures r.Some? ==> PriorityName(r.value) == s
  {
    if s == "low" then Some(Low)
    else if s == "medium" then Some(Medium)
    else if s == "high" then Some(High)
    else if s == "critical" then Some(Critical)
    else None
  }

  /** Parsing inverts naming, for both enumerations. */
  lemma NamesRoundTrip(s: TaskStatus, p: TaskPriority)
    ensures ParseStatus(StatusName(s)) == Some(s)
    ensures ParsePriority(PriorityName(p)) == Some(p)
  {
  }

  /** The fields of a task that task creation fills in; timestamps are milliseconds. */
  datatype Task = Task(
    id: string,
    title: string,
    description: Option<string>,
    status: TaskStatus,
    priority: TaskPriority,
    projectId: Option<string>,
    createdBy: string,
    createdAt: int,
    updatedAt: int)
}
