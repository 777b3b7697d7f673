# todo-app, modelled in Dafny

A model of the logic of a small to-do web application, with proofs about it. The application has two halves.

The React task page (`TodosPage.tsx`) does four things:
- It shows a countdown for each task: the signed seconds left, a text such as `1d 2h 0m 5s left`, and an urgency colour.
- It sorts the tasks into an active board, with one column per priority sorted by deadline, and an archive.
- It counts the board in four counters.
- It keeps the list in page state, which its handlers change: patch, delete, create, and confirmation dialogs before archiving or deleting.

The FastAPI backend stores tasks and accounts in MongoDB:
- A task document is created with defaults and normalised on its way out: the id is renamed, legacy fields are filled, and countdown fields are added.
- Request bodies are validated, and deadlines are normalised to UTC.
- The task routes list, create, patch and delete the caller's tasks.
- The account routes register, log in and sign in with Google.

Modules, one per concern:

- `Wrappers`: `Option` and `Result`.
- `Text`: decimal printing and reading, `join`, `split`, `trim`, ASCII lower-casing.
- `Duration`: splitting seconds into days, hours, minutes and seconds; the unit tokens; `ParseCountdown`, which reads a countdown text back. Both formatters are proved against that inverse.
- `Countdown`: the page's `getDeadlineSeconds`, `formatRelativeTimeFromSeconds`, `getTimerColor`, `pad2`, `statusLabel` and the priority order.
- `TaskBoard`: the active/archived partition, the priority columns, the stable sort (an in-place insertion sort on an array, proved equal to a sort function), the archive order and the counters.
- `TodosPage`: the page state as a class `Page`, with one method per handler. A server reply is a parameter, `None` when the request fails. Each method returns the request it sends.
- `DateTimes`, `Documents`: Python datetimes as a wall clock plus an optional UTC offset; Mongo documents as maps; Python truthiness; ObjectIds; HTTP errors.
- `TodoEnums`, `TodoSchema`: the status and priority enumerations; `normalize_deadline`; validation of the create and update bodies.
- `TodoModel`: `format_time_left`, `Todo.create`, `Todo.to_dict`.
- `TodoRoutes`: the task collection as a class holding a map from ObjectId to document; the four routes as methods.
- `UserModel`, `AuthRoutes`: `User.create`, `User.to_dict`; the account table as a class holding a map from lower-case email to document; register, login and Google sign-in.
- `Divergences`: where the page's countdown and the server's disagree.

Clocks, database-assigned ids, password hashing and checking, token signing and Google's token verification are all parameters.

## Model

| member | source | states |
|---|---|---|
| Countdown.DeadlineSeconds | frontend/src/pages/TodosPage.tsx:60-65 | null iff no deadline; otherwise the floor of the millisecond difference over 1000 (bounded on both sides), negative iff the deadline is before now |
| Countdown.RelativeTokens | frontend/src/pages/TodosPage.tsx:73-84 | the shown tokens are a suffix of the four unit tokens: 4 iff there are days, at least 3 iff days or hours, at least 2 iff any of days, hours or minutes; the seconds token is always there |
| Countdown.FormatRelative | frontend/src/pages/TodosPage.tsx:67-87 | "No deadline" for null; otherwise ends in " overdue" iff the delta is negative and in " left" iff it is not |
| Countdown.FormatRelativeReadsBack | frontend/src/pages/TodosPage.tsx:67-87 | the page's text reads back as exactly the delta it was made from |
| Countdown.Channel | frontend/src/pages/TodosPage.tsx:105-115 | a channel is Math.round (as floor(x + 1/2)) of start + (end - start) * ratio, in exact arithmetic |
| Countdown.ChannelBetween | frontend/src/pages/TodosPage.tsx:104-115 | inside the two-day gradient, a channel stays between its start and end values |
| Countdown.ChannelMonotone | frontend/src/pages/TodosPage.tsx:104-115 | a channel moves monotonically from its start towards its end as the seconds grow |
| Countdown.TimerColor | frontend/src/pages/TodosPage.tsx:92-118 | gray iff no deadline; red iff at most one day (overdue included); blue iff at least three days; otherwise RGB, each channel the rounded interpolation |
| Countdown.GradientInRange | frontend/src/pages/TodosPage.tsx:104-117 | between one and three days every channel lies between its red-end and blue-end values |
| Countdown.GradientMonotone | frontend/src/pages/TodosPage.tsx:104-117 | fewer seconds left never gives less red or more green or blue |
| Countdown.GradientEnds | frontend/src/pages/TodosPage.tsx:98-115 | the gradient starts at the solid red's rgb(239 68 68) and ends at rgb(59 130 246) |
| Countdown.ColorCss | frontend/src/pages/TodosPage.tsx:92-117 | the CSS text: each constant colour iff its constant text; an RGB colour iff "rgb(" leads |
| Countdown.ColorCssReadsBack | frontend/src/pages/TodosPage.tsx:112-117 | the text of a gradient colour ends in ")" and between "rgb(" and ")" holds three space-separated numerals that read back as its red, green and blue |
| Countdown.Pad2 | frontend/src/pages/TodosPage.tsx:52 | all digits, same decimal value, at least two characters, exactly two below 100 |
| Countdown.StatusLabelInjective | frontend/src/pages/TodosPage.tsx:54-58 | different statuses have different labels |
| Countdown.PriorityRank | frontend/src/pages/TodosPage.tsx:43-50 | a priority's rank is its position among the columns |
| Countdown.PrioritiesListEachOnce | frontend/src/pages/TodosPage.tsx:50 | every priority has exactly one column |
| Countdown.OverdueText | frontend/src/pages/TodosPage.tsx:67-87 | -5 seconds reads "5s overdue" |
| Countdown.ScenarioOverdue | frontend/src/pages/TodosPage.tsx:60-99 | a deadline 5 s ago reads "5s overdue" and is red |
| Countdown.TomorrowText | frontend/src/pages/TodosPage.tsx:67-87 | 90000 seconds read "1d 1h 0m 0s left" |
| Countdown.ScenarioTomorrowText | frontend/src/pages/TodosPage.tsx:60-87 | a deadline 25 h ahead reads "1d 1h 0m 0s left" |
| Countdown.ScenarioTomorrowColor | frontend/src/pages/TodosPage.tsx:92-117 | a deadline 25 h ahead is rgb(235 69 72) |
| Countdown.ScenarioFarAhead | frontend/src/pages/TodosPage.tsx:92-102 | a deadline 300000 s ahead is the solid blue |
| Duration.Decompose | frontend/src/pages/TodosPage.tsx:71-78 | days, hours, minutes and seconds reassemble to the total, with hours < 24, minutes < 60 and seconds < 60 |
| Duration.DecompositionUnique | backend/app/models/todo.py:7-14 | any split within those ranges is the one computed, so the page and the server split alike |
| Duration.WordEnding | frontend/src/pages/TodosPage.tsx:86 | text + " " + word ends in " overdue" iff the delta is negative, in " left" iff not |
| Duration.CountdownReadsBack | frontend/src/pages/TodosPage.tsx:80-86 | any suffix of the unit tokens (larger units zero) joined with the word reads back as the delta |
| Text.NatToString | frontend/src/pages/TodosPage.tsx:81-84 | a decimal numeral: non-empty, digits only, leading zero iff the number is 0 |
| Text.DecimalRoundTrip | frontend/src/pages/TodosPage.tsx:81-84 | reading a printed number gives the number |
| Text.NatToStringInjective | backend/app/models/todo.py:16 | different numbers print differently |
| Text.JoinAppend | frontend/src/pages/TodosPage.tsx:86 | joining one more part appends the separator and the part |
| Text.SplitJoin | frontend/src/pages/TodosPage.tsx:86 | splitting a join on a separator no part holds gives the parts back |
| Text.ToLower | backend/app/models/user.py:17 | same length, no upper-case letter, equal to the input ignoring case |
| Text.ToLowerIdempotent | backend/app/api/routes/auth.py:18 | lower-casing twice is lower-casing once |
| Text.Trim | frontend/src/pages/TodosPage.tsx:329 | a slice of the input cut only at white space, starting and ending with non-space; empty iff all white space |
| TaskBoard.Filter | frontend/src/pages/TodosPage.tsx:211-212 | no longer than the input; every kept element passes the test |
| TaskBoard.FilterCount | frontend/src/pages/TodosPage.tsx:211-212 | each passing element is kept as often as it occurs; each failing one is dropped |
| TaskBoard.FilterFilter | frontend/src/pages/TodosPage.tsx:237 | filtering twice is filtering by both tests |
| TaskBoard.FilterSameTest | frontend/src/pages/TodosPage.tsx:239 | tests that agree on the elements keep the same elements |
| TaskBoard.InsertByPermutes | frontend/src/pages/TodosPage.tsx:225-229 | one insertion step adds exactly the inserted element |
| TaskBoard.InsertBySorted | frontend/src/pages/TodosPage.tsx:225-229 | one insertion step keeps a sorted list sorted |
| TaskBoard.InsertByKeepsKeyOrder | frontend/src/pages/TodosPage.tsx:225-229 | one insertion step puts the element after all earlier elements of the same key |
| TaskBoard.SortByPermutes | frontend/src/pages/TodosPage.tsx:224-230 | the sort is a permutation |
| TaskBoard.SortBySorted | frontend/src/pages/TodosPage.tsx:224-230 | the sort result is in ascending key order |
| TaskBoard.SortByFacts | frontend/src/pages/TodosPage.tsx:224-230 | permutation and ascending order together |
| TaskBoard.SortByIsStable | frontend/src/pages/TodosPage.tsx:224-230 | elements of equal key keep their relative order (stable, as ECMAScript requires of sort) |
| TaskBoard.InsertByAt | frontend/src/pages/TodosPage.tsx:225-229 | the element goes after the last not-larger key and before the larger ones |
| TaskBoard.SortInPlace | frontend/src/pages/TodosPage.tsx:225-229 | the array ends up equal to the stable sort of its old contents |
| TaskBoard.InsertAt | frontend/src/pages/TodosPage.tsx:225-229 | the prefix plus one more element becomes the insertion of that element; the rest is untouched |
| TaskBoard.ShiftLarger | frontend/src/pages/TodosPage.tsx:225-229 | larger keys of the sorted prefix move one place right; the returned gap is where the element belongs |
| TaskBoard.SortedCopy | frontend/src/pages/TodosPage.tsx:496-498 | the copy is the stable sort of the input |
| TaskBoard.ActiveArchivedPartition | frontend/src/pages/TodosPage.tsx:211-212 | board and archive together are a permutation of the list; sizes add up; no task is in both |
| TaskBoard.DeadlineKey | frontend/src/pages/TodosPage.tsx:226-227 | a dated task's key is its instant, below MAX_SAFE_INTEGER; an undated task's key is MAX_SAFE_INTEGER |
| TaskBoard.GroupActive | frontend/src/pages/TodosPage.tsx:214-233 | each column is the stable deadline sort of the active tasks of its priority |
| TaskBoard.BoardColumns | frontend/src/pages/TodosPage.tsx:211-233 | the columns the page computes from the whole list |
| TaskBoard.ColumnContents | frontend/src/pages/TodosPage.tsx:214-222 | a column holds each active task of its priority as often as the list does, and no other task |
| TaskBoard.ColumnsCoverActive | frontend/src/pages/TodosPage.tsx:214-222 | the four column sizes add up to the number of active tasks |
| TaskBoard.ColumnOrder | frontend/src/pages/TodosPage.tsx:224-230 | earlier deadlines first; undated tasks after all dated ones |
| TaskBoard.ColumnKeepsListOrder | frontend/src/pages/TodosPage.tsx:224-230 | tasks with the same deadline key keep list order |
| TaskBoard.ArchiveView | frontend/src/pages/TodosPage.tsx:496-498 | the archive is the stable sort of the finished tasks by priority rank |
| TaskBoard.ArchiveViewOrder | frontend/src/pages/TodosPage.tsx:496-498 | a permutation of the finished tasks, most urgent first, list order within a priority |
| TaskBoard.ComputeStats | frontend/src/pages/TodosPage.tsx:235-241 | total + completed is the list length; in-progress and overdue are at most total |
| TaskBoard.OverdueMatchesCards | frontend/src/pages/TodosPage.tsx:239 | the overdue counter counts exactly the board cards whose countdown reads "overdue", and each of those cards is red |
| TaskBoard.InProgressCount | frontend/src/pages/TodosPage.tsx:237 | the in-progress counter counts every in-progress task of the whole list |
| TodosPage.ReplaceById | frontend/src/pages/TodosPage.tsx:245 | same length; the tasks with that id are swapped, every other task stays in place |
| TodosPage.RemoveByIdContents | frontend/src/pages/TodosPage.tsx:287 | removal drops exactly the tasks with that id; the others keep their multiplicity |
| TodosPage.RemoveAfterReplace | frontend/src/pages/TodosPage.tsx:284-288 | removing an id after replacing it is the same as removing it |
| TodosPage.ReplaceIdempotent | frontend/src/pages/TodosPage.tsx:245 | replacing twice with the same reply is replacing once |
| TodosPage.ArchivedLeavesBoard | frontend/src/pages/TodosPage.tsx:263-273 | once the reply says finished, no task with that id is on the board, and the reply is in the archive |
| TodosPage.Page.constructor | frontend/src/pages/TodosPage.tsx:179-193 | empty list, board view, no detail view, no pending confirmation, form closed |
| TodosPage.Page.FetchTodos | frontend/src/pages/TodosPage.tsx:195-205 | the server's list replaces the page's; a failure keeps the old one; nothing else changes |
| TodosPage.Page.PatchTodo | frontend/src/pages/TodosPage.tsx:243-247 | sends the PATCH; on success the reply replaces the tasks with that id; nothing else changes |
| TodosPage.Page.UpdateStatus | frontend/src/pages/TodosPage.tsx:249-261 | finishing sends nothing and only sets the archive candidate; any other status is patched, and an open detail view of that task shows the reply |
| TodosPage.Page.ConfirmArchive | frontend/src/pages/TodosPage.tsx:263-273 | no candidate: nothing; otherwise patches finished; on success clears the candidate and closes that task's detail view; on failure keeps the dialog |
| TodosPage.Page.CancelArchive | frontend/src/pages/TodosPage.tsx:646-652 | clears the archive candidate only |
| TodosPage.Page.RestoreTodo | frontend/src/pages/TodosPage.tsx:275-282 | patches not-started; on success back to the board view |
| TodosPage.Page.DeleteTodo | frontend/src/pages/TodosPage.tsx:284-292 | sends the DELETE; on success removes the tasks with that id and their detail view |
| TodosPage.Page.RequestDelete | frontend/src/pages/TodosPage.tsx:294-296 | only sets the delete candidate |
| TodosPage.Page.ConfirmDelete | frontend/src/pages/TodosPage.tsx:298-302 | deletes the candidate, then clears it whether or not the delete worked |
| TodosPage.Page.CancelDelete | frontend/src/pages/TodosPage.tsx:657-663 | clears the delete candidate only |
| TodosPage.Page.DetailStatusClick | frontend/src/pages/TodosPage.tsx:626-634 | finishing closes the detail view and makes its task the archive candidate; any other status goes through UpdateStatus |
| TodosPage.Page.OpenDetail | frontend/src/pages/TodosPage.tsx:361-363 | opens the detail view on that task only |
| TodosPage.Page.CloseDetail | frontend/src/pages/TodosPage.tsx:593-602 | closes the detail view only |
| TodosPage.Page.SetViewMode | frontend/src/pages/TodosPage.tsx:405-416 | switches between board and archive only |
| TodosPage.Page.SaveCreateOrEdit | frontend/src/pages/TodosPage.tsx:328-359 | blank trimmed title: nothing. Edit: patches all form fields, the deadline possibly null. Create: posts and puts the reply first. Success closes the form |
| DateTimes.Combine | backend/app/schemas/todo.py:25 | the datetime has the given date, time of day and tzinfo |
| DateTimes.ReplaceTz | backend/app/schemas/todo.py:29 | same date and wall clock under the new tzinfo |
| DateTimes.AsUtc | backend/app/schemas/todo.py:30 | a UTC datetime for the same instant |
| Documents.Get | backend/app/models/todo.py:51 | `dict.get`: the stored value, None when absent |
| Documents.ParseObjectId | backend/app/api/routes/todos.py:48-54 | accepted iff 24 hex digits; the id is lower-case hex and equals the text ignoring case |
| Documents.ObjectIdRoundTrip | backend/app/api/routes/todos.py:48-49 | the text of a stored ObjectId parses back to that ObjectId |
| TodoEnums.ParseStatus | backend/app/schemas/todo.py:7-10 | a member iff some status has that value, and the member's value is the input |
| TodoEnums.ParsePriority | backend/app/schemas/todo.py:13-17 | a member iff some priority has that value, and the member's value is the input |
| TodoEnums.EnumValuesRoundTrip | backend/app/schemas/todo.py:7-17 | every member's value parses back to the member |
| TodoSchema.NormalizeDeadline | backend/app/schemas/todo.py:20-32 | None iff None; always UTC; a date becomes 23:59:59 of that day; a naive datetime keeps its wall clock; an aware one keeps its instant |
| TodoSchema.NormalizeIdempotent | backend/app/schemas/todo.py:27-30 | normalising a normalised deadline again changes nothing |
| TodoSchema.NormalizeSameInstant | backend/app/schemas/todo.py:30 | aware datetimes for the same instant normalise alike |
| TodoSchema.CreateErrors | backend/app/schemas/todo.py:35-42 | each constraint fails iff its condition holds: title missing, title empty, description over 20000, unknown priority |
| TodoSchema.ValidateCreate | backend/app/schemas/todo.py:35-47 | accepted iff no constraint fails; a description defaults to "", a priority to medium; the deadline is normalised |
| TodoSchema.UpdateErrors | backend/app/schemas/todo.py:50-55 | each constraint on a given field fails iff its condition holds; nothing is required |
| TodoSchema.ValidateUpdate | backend/app/schemas/todo.py:50-60 | accepted iff no constraint fails; set fields stay set, nulls stay null, values map to members; a given deadline is normalised |
| TodoModel.FormatTimeLeft | backend/app/models/todo.py:5-17 | ends in " overdue" iff the seconds are negative, in " left" iff not |
| TodoModel.FormatTimeLeftTokens | backend/app/models/todo.py:16-17 | always all four unit tokens, leading zeros included, then the word |
| TodoModel.FormatTimeLeftReadsBack | backend/app/models/todo.py:5-17 | the server's text reads back as exactly the seconds |
| TodoModel.TruncDiv | backend/app/models/todo.py:63 | the quotient rounded toward zero, as `int()` of a quotient |
| TodoModel.CreateTodoDoc | backend/app/models/todo.py:20-39 | exactly the eight keys; not started; priority medium unless given; created_at equals updated_at |
| TodoModel.NormalizedTodo | backend/app/models/todo.py:41-48 | an empty document is returned as is; otherwise no "_id" key, and the keys are the added ones plus the stored ones |
| TodoModel.NormalizedFields | backend/app/models/todo.py:46-55 | id is str(_id); a missing status is finished iff `completed` is truthy; missing priority medium, missing description ""; other keys unchanged |
| TodoModel.NormalizedWithoutDeadline | backend/app/models/todo.py:67-70 | no truthy deadline: null, null, false, and the stored deadline is kept |
| TodoModel.NormalizedWithDeadline | backend/app/models/todo.py:57-66 | a deadline: made aware (a naive one keeps its wall clock as UTC); seconds left truncated; their text; overdue iff negative |
| TodoModel.ToDict | backend/app/models/todo.py:41-72 | the step-by-step conversion equals the normalised document |
| TodoModel.RenameAndFill | backend/app/models/todo.py:46-55 | renames the id and fills the three missing fields |
| TodoModel.MakeDeadlineAware | backend/app/models/todo.py:57-60 | a naive deadline is written back read as UTC; the returned deadline is aware when truthy |
| TodoModel.AddCountdown | backend/app/models/todo.py:62-70 | adds the three countdown fields, all else unchanged |
| TodoModel.OverdueFlagMatchesText | backend/app/models/todo.py:62-70 | is_overdue is true iff the text ends in " overdue"; the text reads back as time_left_seconds |
| Divergences.TextsAgreeIffADayOrMore | backend/app/models/todo.py:16 | the server's and the page's texts for the same seconds agree iff at least a day is shown |
| Divergences.SecondsLeftRounding | backend/app/models/todo.py:63 | the server's seconds equal the page's except whenever the deadline has passed by a number of seconds that is not whole, where they are one larger (5.5 s past: page -6, server -5); server overdue implies page overdue |
| Divergences.HalfSecondPastDeadline | frontend/src/pages/TodosPage.tsx:60-70 | half a second past the deadline, the page says overdue while the server says 0 s left |
| TodoRoutes.UpdatesKeys | backend/app/api/routes/todos.py:66-78 | the `$set` document has exactly the set fields, and never updated_at |
| TodoRoutes.UpdatesFields | backend/app/api/routes/todos.py:66-78 | each set field is stored with its given value, an explicit null as null |
| TodoRoutes.NoUpdatesWhenNothingSet | backend/app/api/routes/todos.py:81-85 | the `$set` document is empty iff no field is set |
| TodoRoutes.BuildUpdates | backend/app/api/routes/todos.py:66-78 | the field-by-field construction builds that `$set` document |
| TodoRoutes.PatchedKeepsTheRest | backend/app/api/routes/todos.py:87-89 | the set fields and updated_at are overwritten; every other key keeps its value |
| TodoRoutes.PatchedDeadline | backend/app/api/routes/todos.py:75-76 | a given deadline is stored as given |
| TodoRoutes.PatchedConvertible | backend/app/api/routes/todos.py:87-91 | a patched document is still convertible; its id and owner are unchanged |
| TodoRoutes.NullTitleIsStored | backend/app/api/routes/todos.py:69-70 | an explicit null title is stored as null |
| TodoRoutes.NewTodoDocFacts | backend/app/api/routes/todos.py:27-36 | a new document is the caller's, not started, has its own id and is convertible |
| TodoRoutes.AddOwned | backend/app/api/routes/todos.py:35-36 | inserting it keeps the collection well formed and adds exactly its id to the caller's tasks |
| TodoRoutes.ReplaceKeepsWellFormed | backend/app/api/routes/todos.py:89 | replacing a document by one with the same id keeps the collection well formed |
| TodoRoutes.TodoCollection.FindOwned | backend/app/api/routes/todos.py:16 | every id of the caller's tasks, each once, and no other; as many ids as the caller has tasks |
| TodoRoutes.TodoCollection.GetTodos | backend/app/api/routes/todos.py:13-17 | as many entries as the caller has tasks: one converted entry per task of the caller, each once, and none of anyone else's |
| TodoRoutes.ConvertEach | backend/app/api/routes/todos.py:17 | one entry per found document, in the order found, each that document converted |
| TodoRoutes.TodoCollection.CreateTodo | backend/app/api/routes/todos.py:20-37 | exactly one document more, owned by the caller, not started; returned converted |
| TodoRoutes.TodoCollection.UpdateTodo | backend/app/api/routes/todos.py:40-91 | 400 for a bad id; 404 for a missing or foreign task; 400 for an empty patch; all leave the collection unchanged; otherwise only that task is patched and returned converted |
| TodoRoutes.TodoCollection.DeleteTodo | backend/app/api/routes/todos.py:94-120 | 400 for a bad id; the caller's task is removed with the message; otherwise 404 and nothing changes |
| UserModel.CreateUser | backend/app/models/user.py:9-27 | email lower-cased; provider local and Google id None unless given; a hash is stored iff a non-empty one is given |
| UserModel.UserToDict | backend/app/models/user.py:29-39 | an empty document is returned as is; otherwise id is str(_id), the hidden keys are dropped, all other keys are kept |
| UserModel.NewUserView | backend/app/models/user.py:9-39 | a new account is shown with exactly id, lower-cased email, name and creation time |
| AuthRoutes.Login | backend/app/api/routes/auth.py:47-78 | errors in order: unknown email gives "Invalid credentials", no hash gives "This account uses Google sign-in", a wrong password gives "Invalid credentials" again; success iff known, hashed and verified; the token is for the lower-cased email |
| AuthRoutes.CheckGoogleClaims | backend/app/api/routes/auth.py:81-118 | accepted iff verified, a Google issuer, email_verified true, non-empty email and sub; the email is lower-cased; the name defaults to "Google User" |
| AuthRoutes.AddKeepsWellFormed | backend/app/api/routes/auth.py:27-34 | storing an account under its own lower-case email keeps the table well formed |
| AuthRoutes.GoogleTableWellFormed | backend/app/api/routes/auth.py:120-139 | every Google sign-in keeps the table well formed |
| AuthRoutes.GoogleSignInSettles | backend/app/api/routes/auth.py:122-139 | a second Google sign-in with the same claims changes nothing |
| AuthRoutes.LoginAfterRegister | backend/app/api/routes/auth.py:14-78 | after a sign-up, a login with the same password and any letter case of the email succeeds |
| AuthRoutes.UserTable.constructor | backend/app/api/routes/auth.py:18 | an empty, well-formed table |
| AuthRoutes.UserTable.Register | backend/app/api/routes/auth.py:14-44 | an email taken in any case: 400 and nothing stored; otherwise exactly one local account under the lower-cased email, and a token for it |
| AuthRoutes.UserTable.SignIn | backend/app/api/routes/auth.py:47-78 | answers exactly as Login decides; changes nothing |
| AuthRoutes.UserTable.GoogleAuth | backend/app/api/routes/auth.py:81-148 | rejected claims: the matching 401 and nothing changes; otherwise link or create as GoogleTable says, and a token for the email |

## Left out

- Rendering, CSS classes, `isLoading`, the detail and confirmation modals' markup, and the one-second timer that re-renders the countdown are not modelled. The countdown functions take "now" as a parameter.
- `toApiDeadline`, `toDateInput` and `toTimeInput` are not modelled, nor `openCreateModal`, `openEditModal` and `closeCreateModal`. They convert between form fields and the browser's local time zone, which is outside the model. `SaveCreateOrEdit` takes the deadline already converted.
- Tasks on the page carry only the fields the page's logic reads. The server's countdown fields and timestamps are not kept.
- Deadlines on the page are instants in milliseconds. Parsing an ISO text with `new Date`, and a text that does not parse (NaN), are not modelled.
- Countdown.TimerColor: computes the channels in exact rational arithmetic, not in IEEE doubles. A double rounding that lands exactly on a half is not modelled.
- TodosPage.Page.SaveCreateOrEdit: the editing id is an Option. The page tests the id string for truthiness, so an empty id would create instead of edit; ids are never empty.
- Text.ToLower: lower-cases ASCII letters only. Python's `str.lower` also lower-cases other scripts.
- TodoModel.SecondsLeft: uses the exact microsecond difference. Python goes through a float `total_seconds()`, which rounds for differences of more than about 285 years.
- TodoModel.NormalizedTodo: requires "_id" to be an ObjectId and a truthy deadline to be a datetime, as every stored task has. `str()` of other id types is not modelled.
- `to_dict` of `None` is not modelled; an empty document stands for every falsy input.
- TodoRoutes.TodoCollection.GetTodos: does not fix the order of the list. Mongo returns the documents in an order the model does not know, so the result is stated per entry and by a ghost order of ids.
- The authentication dependency that turns a bearer token into `current_user` is not modelled. The routes take the caller's user id text.
- Hashing, password checking and token signing are function parameters. Token expiry and signing keys are not modelled.
- Google's token verification is a parameter: the verified claims, or `None` when verification throws.
- The `UserCreate` and `UserLogin` bodies (e-mail syntax, password rules) are not modelled. Their schema file is not part of this model.
- Database failures, HTTP status codes of successful responses and the response models' serialisation are not modelled.
- TodosPage.Page.UpdateStatus, TodosPage.Page.ConfirmArchive, TodosPage.Page.DeleteTodo: each handler is one atomic step, with its request and reply taken together. A user action while the request is in flight is not modelled. Neither is the source's test of the `detailTodo` captured when the handler started: if the user closes the detail view during a status PATCH, the source reopens it with the reply.
- TodoRoutes.TodoCollection: stores datetimes exactly as written, with their UTC offset and to the microsecond. MongoDB gives them back without a time zone and truncated to milliseconds, so `created_at` and `updated_at` come back naive in the source but aware in the model. The re-read after `update_one` is the patched document held in memory.
