# TaskFlow backend core, modelled in Dafny

This project models four pieces of the TaskFlow backend:

- **The in-memory comment store** (`InMemoryCommentStore`).
  - Comments are kept in a map keyed by id and iterated in insertion order.
  - Each comment has a list of reactions.
  - Comments, attachments and reactions all draw their ids from one counter.
  - `@name` mentions are extracted when a comment is created.
  - Each update or delete checks that the caller is the comment's author.
  - Listing a task's comments filters, sorts stably by creation time, and pages with `Array.prototype.slice`.
- **The task service.**
  - Its four-rule input validator.
  - Task creation, with the defaults "todo" and "medium" and the wrapped error message.
  - The placeholder lookup, listing, update and delete.
- **The request-validation middleware** for task bodies. Its first failing guard answers 400 with a detail for one field.
- **The fixed-window rate limiter.** It allows 100 requests per client in each 15-minute window, maintains the X-RateLimit headers, and answers 429 with a `retryAfter` in seconds.

Modules, one per file:

- `JsPrelude` (`js_prelude.dfy`) holds the JavaScript behaviour that the code relies on:
  - truthiness;
  - `String.prototype.trim` and its whitespace set;
  - `.length` in UTF-16 code units;
  - `Array.prototype.slice`, with clamping and negative indices;
  - `Math.ceil` of a quotient;
  - the ASCII `\w` class;
  - the `${error}` rendering of a thrown `new Error(message)`. It is `"Error: " + message`, or just `"Error"` when the message is empty.
- `TaskTypes` holds the task record and its two enumerations.
- `TaskService`, `Validators` and `RateLimiter` hold the other three pieces.
- `Mentions` models the regular-expression scan `/@(\w+)/g`. It is proved equal to an independent description of the mentions in a text.
- `Comments` holds the comment store as a class with fields and `modifies` clauses. A ghost map records what each drawn id was given to. The store's invariant `Valid()` says two things:
  - the insertion order tracks the map's keys;
  - every id in use is accounted for, which makes ids distinct.

Inputs that are outside the code become parameters:

- Every clock reading (`Date.now()`, `new Date()`) is a `now` argument in milliseconds. A call that reads the clock twice reads one value.
- Task update and delete receive the by-id lookup as a function argument.
  - A lookup that throws is represented by the text `${error}` makes of whatever it threw, so any error class, and a thrown non-`Error`, is covered.
  - The service's own lookup always answers null, and `TaskService.PlaceholdersFindNothing` states what follows from that.
- The middleware's `req`, `res` and `next` become an input datatype (the body's fields, or the client's address) and a result datatype (`Decision` or `Reply`).

Places where the code's behaviour is easy to misread, modelled as the code does it:

- `getComments` applies its default `{limit: 10, offset: 0}` only when the options are left out entirely.
  - If an options object is given without `limit` or without `offset`, the slice end is `NaN`. The slice is then empty.
  - A missing `offset` reads as 0 for the start. The end is still `NaN`, so the slice is still empty.
- `createTask` wraps its error through a template literal. The message is therefore `"Failed to create task: Error: <message>"`.
- The title-length messages say "less than 255 characters". The guard is `length > 255`, so a title of exactly 255 code units is accepted (`TaskService.TitleLengthBoundary`).
- A rate-limit window expires only strictly after its reset time.
- `addReaction` checks only that the id exists. A soft-deleted comment still takes reactions.
- `updateComment` and `deleteComment` both work on soft-deleted comments.

## Model

| member | source | states |
|---|---|---|
| JsPrelude.ErrorString | src/backend/services/TaskService.ts:76 | the template-literal rendering of `new Error(message)` is "Error: " followed by the message, or the bare name "Error" when the message is empty |
| JsPrelude.TrimStart | src/backend/middleware/validators.ts:16 | the first half of `Trim(s)` (`String.prototype.trim` is `TrimStart(TrimEnd(s))`): the result is a suffix of its input that is empty or starts with a non-whitespace character, and what it drops is all whitespace |
| JsPrelude.TrimEnd | src/backend/middleware/validators.ts:16 | the second half of `Trim(s)`: the result is a prefix of its input that is empty or ends with a non-whitespace character, and what it drops is all whitespace |
| JsPrelude.TrimEmptyIffBlank | src/backend/middleware/validators.ts:16 | `trim()` gives the empty string exactly when every character is whitespace |
| JsPrelude.Utf16Length | src/backend/middleware/validators.ts:26 | the `.length` of a string lies between its code-point count and twice it, and equals the code-point count when every character is in the Basic Multilingual Plane |
| JsPrelude.Slice | src/backend/features/comments.ts:38-41 | `slice(start, end)` is no longer than its input; for 0 <= start <= end it is the subrange clamped to the length; every element it returns comes from the input |
| JsPrelude.CeilDiv | src/backend/middleware/rateLimiter.ts:57 | `Math.ceil(a / b)` is the least q with a <= q*b |
| JsPrelude.DecimalString | src/backend/services/TaskService.ts:65 | the decimal rendering of a number is a non-empty string of digits |
| TaskTypes.ParseStatus | src/shared/types/index.ts:14 | a string names a status exactly when it is one of the five literals, and the status parsed from it names it back |
| TaskTypes.ParsePriority | src/shared/types/index.ts:15 | a string names a priority exactly when it is one of the four literals, and the priority parsed from it names it back |
| TaskTypes.NamesRoundTrip | src/shared/types/index.ts:14-15 | parsing the name of any status or priority gives that status or priority back |
| TaskService.ValidateTaskInput | src/backend/services/TaskService.ts:119-135 | the validator passes exactly when the input breaks none of the four rules; otherwise it throws the first broken rule in the order title, length, priority, status |
| TaskService.TrimCheckIsBlank | src/backend/services/TaskService.ts:120 | the guard `!title \|\| title.trim().length === 0` is the rule "title missing, empty or all whitespace" |
| TaskService.BlankTitleRejected | src/backend/services/TaskService.ts:120-122 | a whitespace-only title is rejected as missing, whatever the other fields hold |
| TaskService.TitleLengthBoundary | src/backend/services/TaskService.ts:124-126 | the length bound is inclusive: a non-blank title of 255 code units passes the length rule and one of 256 fails it |
| TaskService.AbsentEnumsUnchecked | src/backend/services/TaskService.ts:128-134 | an absent or empty priority and status are not checked, so validity then depends on the title alone |
| TaskService.CreateTask | src/backend/services/TaskService.ts:57-78 | creation succeeds exactly when validation passes. A failure carries "Failed to create task: Error: " and the validation message. A created task has the id "task-" plus the clock and copies title, description, project and creator. Its status and priority are the given ones or "todo" and "medium", and both timestamps are `now` |
| TaskService.GetTasks | src/backend/services/TaskService.ts:24-40 | the placeholder listing never throws and returns no task, whatever the filter |
| TaskService.GetTaskById | src/backend/services/TaskService.ts:45-52 | the placeholder lookup never throws and finds no task, whatever the id |
| TaskService.UpdateTask | src/backend/services/TaskService.ts:83-96 | update fails exactly when the lookup throws. The message is "Failed to update task: " followed by the rendering of what was thrown. It answers null exactly when the lookup does, and otherwise answers the task found, unchanged |
| TaskService.DeleteTask | src/backend/services/TaskService.ts:101-114 | delete fails exactly when the lookup throws, with "Failed to delete task: " followed by the rendering of what was thrown; otherwise it answers true exactly when the lookup finds a task |
| TaskService.ThrownErrorWrapped | src/backend/services/TaskService.ts:93-95 | a lookup that throws `new Error(message)` makes update fail with "Failed to update task: Error: " and the message, or "Failed to update task: Error" when the message is empty. Delete fails the same way (lines 111-113) |
| TaskService.PlaceholdersFindNothing | src/backend/services/TaskService.ts:23-52 | with the service's own placeholder lookup, update answers null, delete answers false and the listing is empty for every input |
| Validators.ValidateTaskInput | src/backend/middleware/validators.ts:12-59 | the middleware calls `next()` exactly when no rule is broken; otherwise it answers 400 with the detail of the first broken rule in the order title, length, priority, status |
| Validators.TitleGuardIsRule | src/backend/middleware/validators.ts:16 | the guard `!title \|\| typeof title !== 'string' \|\| title.trim().length === 0` is the rule "not a string, or blank" |
| Validators.BadTitleRejected | src/backend/middleware/validators.ts:16-24 | a missing, non-string or blank title is answered with the title-required detail |
| Validators.FalsyEnumsPass | src/backend/middleware/validators.ts:37-56 | a falsy priority and status are not checked, so the body passes exactly when the title passes both title rules |
| Validators.BadPriorityRejected | src/backend/middleware/validators.ts:37-45 | once the title passes, a truthy priority outside the four literals is rejected with the priority detail, whether or not it is a string |
| Validators.RulesAgree | src/backend/middleware/validators.ts:16-48 | on string-or-missing fields, each of the four middleware rules tests the same as the corresponding rule of the task service |
| Validators.AgreesWithService | src/backend/middleware/validators.ts:12-59 | for bodies whose fields are strings or missing, the middleware passes exactly when the task service's validator accepts the same input; otherwise both blame the same field |
| Validators.PassedBodyCreates | src/backend/middleware/validators.ts:58 | a string-only body that the middleware passes is never refused by task creation |
| RateLimiter.ClientKey | src/backend/middleware/rateLimiter.ts:25 | the client key is the first truthy value of ip and remote address, and "unknown" if neither is truthy; it is never empty |
| RateLimiter.Admit | src/backend/middleware/rateLimiter.ts:29-45 | an unseen client, or one whose window ended strictly before `now`, gets a fresh window with count 1 that ends 15 minutes later. Otherwise the count goes up by one in the same window. The window never ends before `now` |
| RateLimiter.Respond | src/backend/middleware/rateLimiter.ts:48-59 | the headers are always the limit 100, the remaining count `max(0, 100 - count)` and the reset time. The remaining count is never negative, at most 100 for a non-negative count, and 0 on a 429. The answer is 429 exactly when the count exceeds 100. Its `retryAfter` is the least whole number of seconds that reaches the reset time |
| RateLimiter.WindowsOpenedLater | src/backend/middleware/rateLimiter.ts:29-42 | the store invariant (every count at least 1, every window opened no later than `t`) survives the clock moving forward |
| RateLimiter.RemainingInRange | src/backend/middleware/rateLimiter.ts:49 | after counting a request, the remaining-requests header lies in [0, 100) |
| RateLimiter.RetryAfterWithinWindow | src/backend/middleware/rateLimiter.ts:57 | when the window opened no later than `now`, a 429's `retryAfter` lies in [0, 900] seconds |
| RateLimiter.Replay | src/backend/middleware/rateLimiter.ts:24-62 | the replies to a sequence of requests from one client, one per request |
| RateLimiter.ReplayInWindow | src/backend/middleware/rateLimiter.ts:39-59 | within one window, the k-th further request passes exactly when the earlier count plus k+1 is at most 100 |
| RateLimiter.FirstHundredPass | src/backend/middleware/rateLimiter.ts:17-59 | for a new client, or one whose window expired, the requests within 15 minutes of the first pass exactly when they are among the first 100 |
| RateLimiter.RateLimitStore.constructor | src/backend/middleware/rateLimiter.ts:17 | the store starts empty |
| RateLimiter.RateLimitStore.Handle | src/backend/middleware/rateLimiter.ts:24-62 | one pass through the middleware changes only the requesting client's entry, to Admit of the old one, and replies Respond of the new one. It keeps the store invariant, and with the invariant the remaining-requests header and `retryAfter` stay within their bounds |
| Mentions.WordRunIsMaximal | src/backend/features/comments.ts:17 | the greedy `\w+` run is made of word characters and ends at a non-word character or the end of the text |
| Mentions.ScanMentions | src/backend/features/comments.ts:17 | every extracted mention is non-empty and made of word characters only |
| Mentions.ScanFindsEveryMention | src/backend/features/comments.ts:17 | the global scan returns exactly the independent description: one name for each `@` directly followed by a word character, left to right, each the longest word run after its `@` |
| Mentions.NoMentionsIff | src/backend/features/comments.ts:17 | the mention list is empty (the `\|\| []` fallback) exactly when no `@` is directly followed by a word character |
| Mentions.MentionsOfConcat | src/backend/features/comments.ts:17 | text joined at non-word boundaries mentions the names of both parts, in order and with repeats |
| Mentions.NoAtNoMentions | src/backend/features/comments.ts:17 | text without `@` mentions nobody |
| Mentions.SingleMention | src/backend/features/comments.ts:17 | `@` followed only by word characters mentions exactly the text after the `@` |
| Mentions.MentionBetween | src/backend/features/comments.ts:17 | the mentions of a three-part text whose outer parts mention nobody are the mentions of the middle part |
| Mentions.ExampleMention | tests/unit/comments.test.ts:24-32 | "Hey @john, can you review this?" mentions exactly "john" |
| Comments.InsertionOrder | src/backend/features/comments.ts:34 | `Array.from(comments.values())` lists stored records only; when the order lists keys of the map, it lists their records in that order |
| Comments.LiveForTask | src/backend/features/comments.ts:35-36 | the filter keeps exactly the records of the task that are not deleted, and never lengthens the list |
| Comments.InsertIsPermutation | src/backend/features/comments.ts:37 | inserting into the sorted list adds exactly the one element |
| Comments.InsertKeepsSorted | src/backend/features/comments.ts:37 | inserting into a list sorted by creation time keeps it sorted |
| Comments.SortByCreatedAt | src/backend/features/comments.ts:37 | the sort's result is ordered by creation time and is a permutation of its input |
| Comments.SortIsStable | src/backend/features/comments.ts:37 | the sort is stable: comments created at the same instant keep their relative order |
| Comments.SortKeepsSorted | src/backend/features/comments.ts:37 | a list already in creation order sorts to itself |
| Comments.PageBounds | src/backend/features/comments.ts:32-41 | left-out options give the slice (0, 10). Both keys give (offset, offset + limit). A missing offset reads as 0, and a missing key makes the end `NaN`, which slice reads as 0 |
| Comments.ListComments | src/backend/features/comments.ts:30-42 | the listing holds stored, non-deleted comments of the task in creation order. Without options it has at most 10; with both limit and offset at most `limit`. With an options object missing either key it is empty |
| Comments.SortedLiveAreLive | src/backend/features/comments.ts:34-37 | the sorted live comments are stored, of the task, not deleted, and in creation order |
| Comments.SliceKeepsOrder | src/backend/features/comments.ts:38-41 | any slice of a list in creation order is in creation order |
| Comments.ListingIsWindow | src/backend/features/comments.ts:38-41 | with non-negative limit and offset the listing is the window [offset, offset + limit) of the sorted live comments, cut at their end |
| Comments.DefaultListingIsFirstTen | src/backend/features/comments.ts:32 | without options the listing is the first ten sorted live comments |
| Comments.PagingExample | src/backend/features/comments.ts:38-41 | over five live comments, `{limit: 2, offset: 1}` answers the comments at sorted positions 1 and 2 |
| Comments.ListedIffLive | src/backend/features/comments.ts:34-36 | a stored comment is among the task's sorted live comments exactly when it belongs to that task and is not deleted |
| Comments.AttachmentOwners | src/backend/features/comments.ts:18-21 | the ids drawn for a comment's attachments are the ones right after the comment's own id, one per URL, in URL order |
| Comments.EditKeepsIds | src/backend/features/comments.ts:49-51 | replacing a comment by an edit with the same id and attachments keeps every id accounted for |
| Comments.EditKeepsCreationOrder | src/backend/features/comments.ts:49-51 | an edit that keeps the creation time neither makes nor breaks the creation order |
| Comments.ReactKeepsIds | src/backend/features/comments.ts:68-75 | a reaction that takes the counter's id, appended to a stored comment's list, keeps every id accounted for |
| Comments.CreateKeepsIds | src/backend/features/comments.ts:13-26 | a new comment under the counter's id, with its attachments under the following ids, keeps every id accounted for. Its id is not yet a key |
| Comments.CreateKeepsOrder | src/backend/features/comments.ts:26 | setting a fresh key larger than every stored one appends it to the map's iteration order, which stays ascending |
| Comments.CreateKeepsCreationOrder | src/backend/features/comments.ts:22-26 | a store in creation order with nothing created after `now` stays so when a comment created at `now` is added |
| Comments.InsertionOrderAscending | src/backend/features/comments.ts:34 | a store kept in creation order lists its comments ascending in both creation time and id |
| Comments.LiveKeepsOrder | src/backend/features/comments.ts:36 | filtering keeps that ascending order |
| Comments.IdsDistinct | src/backend/features/comments.ts:14-19 | no two comments, attachments or reactions (whose id is drawn at line 69) carry the same id |
| Comments.SoftDeleteScenario | tests/unit/comments.test.ts:73-83 | after a delete, the comment is not in the task's listing. Another user's delete is refused first. The author's later edit still succeeds and keeps the deleted flag |
| Comments.InMemoryCommentStore.constructor | src/backend/features/comments.ts:3-5 | the store starts empty, with the counter at 1 |
| Comments.InMemoryCommentStore.CreateComment | src/backend/features/comments.ts:7-28 | the comment takes the counter's id, a key not yet stored. Its attachments take the next ids, one per URL in order. It copies the task, user, content and URLs and carries the extracted mentions. Both timestamps are `now`, it is not edited and not deleted. It is stored under its id at the end of the iteration order; reactions are untouched and the invariant is kept |
| Comments.InMemoryCommentStore.StoreNew | src/backend/features/comments.ts:26 | `comments.set` of a freshly numbered comment adds exactly that key, at the end of the order, and establishes the invariant |
| Comments.InMemoryCommentStore.NumberAttachments | src/backend/features/comments.ts:18-21 | each URL in turn becomes an attachment with the next id; the counter advances by the number of URLs and nothing else changes |
| Comments.InMemoryCommentStore.GetComments | src/backend/features/comments.ts:30-42 | the store's listing holds live comments of the task, in creation order, at most 10 without options |
| Comments.InMemoryCommentStore.ListingInIdOrder | src/backend/features/comments.ts:30-42 | in a store kept in creation order, sorting moves nothing. The listing is a window of the task's live comments in insertion order, and their ids increase |
| Comments.InMemoryCommentStore.UpdateComment | src/backend/features/comments.ts:44-53 | an edit fails, with "not found or permission denied" and the store unchanged, exactly when the id is missing or the user is not the author. Otherwise only that comment changes: new content and `editedAt` set to `now`. The order, the reactions, the counter and the creation order are kept |
| Comments.InMemoryCommentStore.DeleteComment | src/backend/features/comments.ts:55-62 | a delete fails under the same condition and with the same error as an edit. Otherwise the record stays stored with only `isDeleted` set, and nothing else changes |
| Comments.InMemoryCommentStore.AddReaction | src/backend/features/comments.ts:64-77 | a reaction fails with "not found", changing nothing, exactly when the id was never created. Otherwise one reaction with the counter's id, the user and the emoji is appended to that comment's list, with no de-duplication, and the counter advances by one |

## Left out

- HTTP plumbing is not modelled: the JSON response bodies, the `res.setHeader` calls, `res.status` and the `next` callback. The middleware results are the `Decision` and `Reply` datatypes, which carry the status, the detail and the header values.
- `async` and `Promise` are not modelled; each operation completes in one step. Concurrency between requests is left out too.
- Clocks are parameters. `Date` values are milliseconds as integers, and every clock reading inside one call sees the same value of `now`.
- Records returned by the comment store are values held in a map. In the source, `updateComment` and `deleteComment` mutate the object that earlier callers may still hold, and `addReaction` pushes onto an array that is already stored. Those aliasing effects are not modelled.
- The object spread `...data` in `createComment` copies only the four declared keys. Extra keys a caller might pass are not modelled.
- JavaScript numbers are floating point. Only integer values are modelled: counts beyond 2^53, and non-integer `limit`, `offset` or clock values, are left out. Bigint ids are unbounded integers, as in the source.
- The rate-limit store is a plain object. Keys that collide with `Object.prototype` properties (such as "constructor") behave like any other key here.
- Strings are sequences of Unicode scalar values. An unpaired surrogate, such as a lone `\uD800` in a JSON `title`, cannot be represented, although JavaScript's `.length` would count it as one code unit.
- `Validators.ValidateTaskInput` assumes a parsed body object. The `TypeError` raised by destructuring a missing `req.body` is left out.
- `TaskService.ValidateTaskInput` takes the typed input: title, priority and status are strings when present. Non-string values, which would make `trim` throw, are left out.
- `dueDate`, `tags` and `assignedTo` of the task types are never read by the modelled code and are not modelled. The update payload and the listing filter are accepted and ignored, as in the source.
- The `catch` branches of `getTasks` and `getTaskById` cannot fire, because their bodies throw nothing, so those functions always succeed here.
- The module-level singleton `commentStore` and its bound exports (src/backend/features/comments.ts:80-86) are one instance of the class and are not modelled separately.
- Comments.InMemoryCommentStore.CreateComment: its contract does not state that creation order is kept. That fact holds only when `now` is no earlier than every stored creation time, and it is proved separately as `Comments.CreateKeepsCreationOrder`.
- Comments.InMemoryCommentStore.GetComments: its contract repeats only part of `Comments.ListComments`. The exact window is `Comments.ListingIsWindow` and `Comments.InMemoryCommentStore.ListingInIdOrder`.
