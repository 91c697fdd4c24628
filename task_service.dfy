/** The task service: the input validation that runs before a task is created, the
    record task creation builds with its defaults, and the lookup-based update and
    delete. Storage is not implemented in the service itself: the by-id lookup is a
    parameter of update and delete, and the service's own lookup finds nothing. */
module TaskService {
  import opened JsPrelude
  import opened TaskTypes

  /** The longest title accepted, in UTF-16 code units. */
  const MAX_TITLE_LENGTH: nat := 255

  datatype CreateTaskInput = CreateTaskInput(
    title: Option<string>,
    description: Option<string>,
    projectId: Option<string>,
    priority: Option<string>,
    status: Option<string>,
    createdBy: string)

  /** The update payload; the service ignores it. */
  datatype UpdateTaskInput = UpdateTaskInput(
    title: Option<string>,
    description: Option<string>,
    status: Option<string>,
    priority: Option<string>,
    assignedTo: Option<string>)

  /** The listing filter; the service ignores it. */
  datatype TaskQuery = TaskQuery(
    skip: Option<int>,
    take: Option<int>,
    status: Option<string>,
    priority: Option<string>,
    projectId: Option<string>)

  datatype ValidationError = TitleRequired | TitleTooLong | InvalidPriority | InvalidStatus

  /** The message each validation error is thrown with. */
  function Message(e: ValidationError): string {
    match e
    case TitleRequired => "Task title is required"
    case TitleTooLong => "Task title must be less than 255 characters"
    case InvalidPriority => "Invalid priority level"
    case InvalidStatus => "Invalid status"
  }

  // The four rules, each on its own.

  predicate TitleMissing(input: CreateTaskInput) {
    !Given(input.title) || Blank(input.title.value)
  }

  predicate TitleOverlong(input: CreateTaskInput) {
    input.title.Some? && Utf16Length(input.title.value) > MAX_TITLE_LENGTH
  }

  predicate PriorityRejected(input: CreateTaskInput) {
    Given(input.priority) && input.priority.value !in PRIORITY_NAMES
  }

  predicate StatusRejected(input: CreateTaskInput) {
    Given(input.status) && input.status.value !in STATUS_NAMES
  }

  /** Every rule the input breaks, in the order the service checks them. */
  function Violations(input: CreateTaskInput): seq<ValidationError> {
    (if TitleMissing(input) then [TitleRequired] else [])
    + (if TitleOverlong(input) then [TitleTooLong] else [])
    + (if PriorityRejected(input) then [InvalidPriority] else [])
    + (if StatusRejected(input) then [InvalidStatus] else [])
  }

  /** The validator: a chain of guards, the first failing one throws (None: no throw).
      It passes exactly when no rule is broken, and otherwise reports the first rule
      broken in the order title, length, priority, status. */
  function ValidateTaskInput(input: CreateTaskInput): (r: Option<ValidationError>)
    ensures r == None <==> Violations(input) == []
    ensures r.Some? ==> r.value == Violations(input)[0]
  {
    TrimCheckIsBlank(input);
    if !Given(input.title) || |Trim(input.title.value)| == 0 then Some(TitleRequired)
    else if Utf16Length(input.title.value) > 255 then Some(TitleTooLong)
    else if Given(input.priority) && !(input.priority.value in ["low", "medium", "high", "critical"]) then
      Some(InvalidPriority)
    else if Given(input.status)
      && !(input.status.value in ["todo", "in_progress", "review", "completed", "archived"]) then
      Some(InvalidStatus)
    else None
  }

  /** The `trim().length === 0` guard is the blank-title rule. */
  lemma TrimCheckIsBlank(input: CreateTaskInput)
    ensures (!Given(input.title) || |Trim(input.title.value)| == 0) <==> TitleMissing(input)
  {
    if input.title.Some? {
      TrimEmptyIffBlank(input.title.value);
    }
  }

  /** A title made only of whitespace is rejected as missing, whatever else the input holds. */
  lemma BlankTitleRejected(input: CreateTaskInput)
    requires input.title.Some? && Blank(input.title.value)
    ensures ValidateTaskInput(input) == Some(TitleRequired)
  {
  }

  /** The length bound is inclusive: a non-blank title of exactly 255 code units passes
      the length rule, one of 256 fails it. */
  lemma TitleLengthBoundary(input: CreateTaskInput)
    requires input.title.Some? && !Blank(input.title.value)
    ensures Utf16Length(input.title.value) == 255 ==> ValidateTaskInput(input) != Some(TitleTooLong)
    ensures Utf16Length(input.title.value) == 256 ==> ValidateTaskInput(input) == Some(TitleTooLong)
  {
  }

  /** An absent or empty priority or status is not checked at all. */
  lemma AbsentEnumsUnchecked(input: CreateTaskInput)
    requires !Given(input.priority) && !Given(input.status)
    ensures ValidateTaskInput(input) == None <==> !TitleMissing(input) && !TitleOverlong(input)
  {
  }

  /** The id the service gives a task created at millisecond `now`. */
  function TaskId(now: nat): string {
    "task-" + DecimalString(now)
  }

  function StatusOrDefault(o: Option<string>): TaskStatus
    requires Given(o) ==> o.value in STATUS_NAMES
  {
    if Given(o) then ParseStatus(o.value).value else Todo
  }

  function PriorityOrDefault(o: Option<string>): TaskPriority
    requires Given(o) ==> o.value in PRIORITY_NAMES
  {
    if Given(o) then ParsePriority(o.value).value else Medium
  }

  /** Task creation at millisecond `now`. A valid input yields a task that copies title,
      description, project and creator and defaults status to "todo" and priority to
      "medium"; an invalid one throws the validation error, wrapped. */
  function CreateTask(input: CreateTaskInput, now: nat): (r: Result<Task, string>)
    ensures r.Ok? <==> ValidateTaskInput(input) == None
    ensures r.Err? ==>
      r.error == "Failed to create task: " + ErrorString(Message(ValidateTaskInput(input).value))
    ensures r.Ok? ==>
      && r.value.title == input.title.value
      && r.value.description == input.description
      && r.value.projectId == input.projectId
      && r.value.createdBy == input.createdBy
      && StatusName(r.value.status) == (if Given(input.status) then input.status.value else "todo")
      && PriorityName(r.value.priority) == (if Given(input.priority) then input.priority.value else "medium")
      && r.value.id == TaskId(now)
      && r.value.createdAt == now && r.value.updatedAt == now
  {
    match ValidateTaskInput(input)
    case Some(e) => Err("Failed to create task: " + ErrorString(Message(e)))
    case None =>
      Ok(Task(
        TaskId(now),
        input.title.value,
        input.description,
        StatusOrDefault(input.status),
        PriorityOrDefault(input.priority),
        input.projectId,
        input.createdBy,
        now,
        now))
  }

  /** The service's own lookup: it never throws and finds no task, whatever the id. */
  function GetTaskById(id: string): (r: Result<Option<Task>, string>)
    ensures r.Ok? && r.value.None?
  {
    Ok(None)
  }

  /** The service's own listing: it never throws and returns no task, whatever the filter. */
  function GetTasks(query: TaskQuery): (r: seq<Task>)
    ensures |r| == 0
  {
    []
  }

  /** Update against a by-id lookup. A lookup that throws is `Err` of `${error}`, the text a
      template literal makes of whatever it threw. Update answers null exactly when the
      lookup does, and otherwise the task found, unchanged; the update data is not applied. */
  function UpdateTask(lookup: string -> Result<Option<Task>, string>, id: string, data: UpdateTaskInput)
    : (r: Result<Option<Task>, string>)
    ensures lookup(id).Err? <==> r.Err?
    ensures r.Err? ==> r.error == "Failed to update task: " + lookup(id).error
    ensures r.Ok? ==> (r.value == None <==> lookup(id).value == None)
    ensures r.Ok? && r.value.Some? ==> lookup(id) == Ok(r.value)
  {
    match lookup(id)
    case Err(thrown) => Err("Failed to update task: " + thrown)
    case Ok(found) => if found.None? then Ok(None) else Ok(found)
  }

  /** Delete against a by-id lookup, which throws as for update: false exactly when the
      lookup finds nothing. */
  function DeleteTask(lookup: string -> Result<Option<Task>, string>, id: string): (r: Result<bool, string>)
    ensures lookup(id).Err? <==> r.Err?
    ensures r.Err? ==> r.error == "Failed to delete task: " + lookup(id).error
    ensures r.Ok? ==> (r.value <==> lookup(id).value.Some?)
  {
    match lookup(id)
    case Err(thrown) => Err("Failed to delete task: " + thrown)
    case Ok(found) => Ok(found.Some?)
  }

  /** A lookup that throws `new Error(message)` makes update and delete fail with the
      message joined on; an empty message leaves the bare name "Error". */
  lemma ThrownErrorWrapped(lookup: string -> Result<Option<Task>, string>, id: string, data: UpdateTaskInput,
                           message: string)
    requires lookup(id) == Err(ErrorString(message))
    ensures message == "" ==>
      && UpdateTask(lookup, id, data) == Err("Failed to update task: Error")
      && DeleteTask(lookup, id) == Err("Failed to delete task: Error")
    ensures message != "" ==>
      && UpdateTask(lookup, id, data) == Err("Failed to update task: Error: " + message)
      && DeleteTask(lookup, id) == Err("Failed to delete task: Error: " + message)
  {
    if message != "" {
      assert "Failed to update task: " + ("Error: " + message) == "Failed to update task: Error: " + message;
      assert "Failed to delete task: " + ("Error: " + message) == "Failed to delete task: Error: " + message;
    } else {
      assert "Failed to update task: " + "Error" == "Failed to update task: Error";
      assert "Failed to delete task: " + "Error" == "Failed to delete task: Error";
    }
  }

  /** With the service's own lookup, update always answers null, delete always answers
      false and the listing is always empty. */
  lemma PlaceholdersFindNothing(id: string, data: UpdateTaskInput, query: TaskQuery)
    ensures UpdateTask(GetTaskById, id, data) == Ok(None)
    ensures DeleteTask(GetTaskById, id) == Ok(false)
    ensures GetTasks(query) == []
  {
  }
}
