/** The request-validation middleware for task bodies: ordered guards on title, title
    length, priority and status; the first failing guard answers 400 with a
    `details` entry for its field, and a body that passes every guard goes on to the
    next handler. The body's fields are untyped JSON values. */
module Validators {
  import opened JsPrelude
  import opened TaskTypes
  import TaskService

  /** A field of the parsed JSON body: missing, a string, or any other JSON value
      (number, boolean, null, array, object) together with its truthiness. */
  datatype Field = Absent | Text(s: string) | Other(truthy: bool)

  datatype RequestBody = RequestBody(title: Field, description: Field, priority: Field, status: Field)

  /** JavaScript truthiness of a field. */
  predicate Truthy(f: Field) {
    match f
    case Absent => false
    case Text(s) => Given(Some(s))
    case Other(t) => t
  }

  /** `list.includes(f)`: only a string can equal one of the literals. */
  predicate IncludedIn(f: Field, list: seq<string>) {
    f.Text? && f.s in list
  }

  datatype BodyField = TitleField | PriorityField | StatusField

  /** The middleware's decision: hand on to the next handler, or answer
      400 `{success: false, error: "Validation error", details: {field: detail}}`. */
  datatype Decision = Next | BadRequest(field: BodyField, detail: string)

  const TITLE_REQUIRED: string := "Title is required and must be a non-empty string"
  const TITLE_TOO_LONG: string := "Title must be less than 255 characters"
  const PRIORITY_INVALID: string := "Priority must be one of: low, medium, high, critical"
  const STATUS_INVALID: string := "Status must be one of: todo, in_progress, review, completed, archived"

  /** The HTTP status of the response the decision writes (none for Next). */
  function HttpStatus(d: Decision): Option<int> {
    if d.BadRequest? then Some(400) else None
  }

  // The four rules, each on its own.

  predicate TitleInvalid(body: RequestBody) {
    !body.title.Text? || Blank(body.title.s)
  }

  predicate TitleOverlong(body: RequestBody) {
    body.title.Text? && Utf16Length(body.title.s) > TaskService.MAX_TITLE_LENGTH
  }

  predicate PriorityInvalid(body: RequestBody) {
    Truthy(body.priority) && !IncludedIn(body.priority, PRIORITY_NAMES)
  }

  predicate StatusInvalid(body: RequestBody) {
    Truthy(body.status) && !IncludedIn(body.status, STATUS_NAMES)
  }

  /** The 400 answers the broken rules call for, in the order the middleware checks them. */
  function Rejections(body: RequestBody): seq<Decision> {
    (if TitleInvalid(body) then [BadRequest(TitleField, TITLE_REQUIRED)] else [])
    + (if TitleOverlong(body) then [BadRequest(TitleField, TITLE_TOO_LONG)] else [])
    + (if PriorityInvalid(body) then [BadRequest(PriorityField, PRIORITY_INVALID)] else [])
    + (if StatusInvalid(body) then [BadRequest(StatusField, STATUS_INVALID)] else [])
  }

  /** The middleware: exactly one outcome, `next()` when no rule is broken and otherwise
      the single 400 of the first rule broken in the order title, length, priority, status. */
  function ValidateTaskInput(body: RequestBody): (d: Decision)
    ensures d == Next <==> Rejections(body) == []
    ensures d != Next ==> d == Rejections(body)[0]
  {
    TitleGuardIsRule(body);
    var title := body.title;
    if !Truthy(title) || !title.Text? || |Trim(title.s)| == 0 then BadRequest(TitleField, TITLE_REQUIRED)
    else if Utf16Length(title.s) > 255 then BadRequest(TitleField, TITLE_TOO_LONG)
    else if Truthy(body.priority) && !IncludedIn(body.priority, ["low", "medium", "high", "critical"]) then
      BadRequest(PriorityField, PRIORITY_INVALID)
    else if Truthy(body.status)
      && !IncludedIn(body.status, ["todo", "in_progress", "review", "completed", "archived"]) then
      BadRequest(StatusField, STATUS_INVALID)
    else Next
  }

  /** `!title || typeof title !== 'string' || title.trim().length === 0` is the title rule. */
  lemma TitleGuardIsRule(body: RequestBody)
    ensures (!Truthy(body.title) || !body.title.Text? || |Trim(body.title.s)| == 0) <==> TitleInvalid(body)
  {
    if body.title.Text? {
      TrimEmptyIffBlank(body.title.s);
    }
  }

  /** A missing, non-string or blank title is answered with the title detail. */
  lemma BadTitleRejected(body: RequestBody)
    requires !body.title.Text? || Blank(body.title.s)
    ensures ValidateTaskInput(body) == BadRequest(TitleField, TITLE_REQUIRED)
  {
  }

  /** A priority or status that is missing, empty or any other falsy value is not checked. */
  lemma FalsyEnumsPass(body: RequestBody)
    requires !Truthy(body.priority) && !Truthy(body.status)
    ensures ValidateTaskInput(body) == Next <==> !TitleInvalid(body) && !TitleOverlong(body)
  {
  }

  /** A present priority outside the four literals is rejected once the title passes,
      whether it is a string or any other truthy value. */
  lemma BadPriorityRejected(body: RequestBody)
    requires !TitleInvalid(body) && !TitleOverlong(body)
    requires Truthy(body.priority) && !IncludedIn(body.priority, PRIORITY_NAMES)
    ensures ValidateTaskInput(body) == BadRequest(PriorityField, PRIORITY_INVALID)
  {
  }

  /** A body whose fields are all missing or strings, as the task service's input. */
  predicate StringFields(body: RequestBody) {
    && (body.title.Absent? || body.title.Text?)
    && (body.description.Absent? || body.description.Text?)
    && (body.priority.Absent? || body.priority.Text?)
    && (body.status.Absent? || body.status.Text?)
  }

  function AsString(f: Field): Option<string> {
    if f.Text? then Some(f.s) else None
  }

  /** The service input built from the body's own fields. */
  function ToServiceInput(body: RequestBody, createdBy: string): TaskService.CreateTaskInput {
    TaskService.CreateTaskInput(
      AsString(body.title), AsString(body.description), None,
      AsString(body.priority), AsString(body.status), createdBy)
  }

  /** Which body field a service validation error is about. */
  function FieldOf(e: TaskService.ValidationError): BodyField {
    match e
    case TitleRequired => TitleField
    case TitleTooLong => TitleField
    case InvalidPriority => PriorityField
    case InvalidStatus => StatusField
  }

  /** On string-or-missing fields the middleware and the service's validator are the same
      rule set: the middleware passes a body exactly when the service accepts it, and
      otherwise both blame the same field, first in the same order. */
  lemma {:induction false} AgreesWithService(body: RequestBody, createdBy: string)
    requires StringFields(body)
    ensures var v := TaskService.ValidateTaskInput(ToServiceInput(body, createdBy));
      && (ValidateTaskInput(body) == Next <==> v == None)
      && (v.Some? ==> ValidateTaskInput(body).field == FieldOf(v.value))
  {
    var input := ToServiceInput(body, createdBy);
    RulesAgree(body, createdBy);
    var rejections, violations := Rejections(body), TaskService.Violations(input);
    assert rejections == [] <==> violations == [];
    assert violations != [] ==> rejections[0].field == FieldOf(violations[0]);
  }

  /** Rule by rule, the middleware and the service test the same thing on string fields. */
  lemma RulesAgree(body: RequestBody, createdBy: string)
    requires StringFields(body)
    ensures var input := ToServiceInput(body, createdBy);
      && TitleInvalid(body) == TaskService.TitleMissing(input)
      && TitleOverlong(body) == TaskService.TitleOverlong(input)
      && PriorityInvalid(body) == TaskService.PriorityRejected(input)
      && StatusInvalid(body) == TaskService.StatusRejected(input)
  {
  }

  /** A body the middleware lets through, made only of strings, is never refused by task
      creation afterwards. */
  lemma PassedBodyCreates(body: RequestBody, createdBy: string, now: nat)
    requires StringFields(body) && ValidateTaskInput(body) == Next
    ensures TaskService.CreateTask(ToServiceInput(body, createdBy), now).Ok?
  {
    AgreesWithService(body, createdBy);
  }
}
