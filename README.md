# Task management service: a verified model of the domain core

This Dafny project models the core of a TypeScript task/user service and proves properties of it. The service keeps tasks and users behind repositories and drives them through use cases. The model covers:

- **The task status workflow.** A fixed table of legal transitions between PENDING, IN_PROGRESS, COMPLETED and CANCELLED (`ValueObjects`).
- **The entities.**
  - `Task.create` validates and applies defaults. `transitionTo`, `updateDetails` and `touch` rewrite the task in place (`TaskEntity`, with a `Task` class holding the record).
  - `User.create` validates the name and the email and normalises both (`UserEntity`).
- **The error taxonomy.** Not-found, validation and conflict errors, with their codes and messages (`Errors`). Every fallible operation returns a `Result` instead of throwing.
- **The repository contract.** The filter, the pagination parameters and result, and the page arithmetic (`RepositoryContract`).
- **The in-memory repositories.** Each is a class whose store is a map from id to record, plus the ids in insertion order: that order is the order in which a JavaScript `Map` is iterated.
  - Tasks (`InMemoryTasks`): the filter stages, the newest-first sort, the count and the slice of `findAll`, and the CRUD operations.
  - Users (`InMemoryUsers`): `findByEmail`'s first-match loop.
- **The PostgreSQL repository's pure part** (`PgTasks`).
  - How `findAll` builds its WHERE clause: `$n` placeholders and a parameter array kept in step.
  - The LIMIT/OFFSET arguments and the page arithmetic.
  - `rowToEntity` and the result of `delete`.
- **The response mappers** (`Dtos`).
- **The use cases** (`UseCases`): list, create, get, update, update-status and delete tasks; create user. Each is a class holding its repository. A repository hands out values, so a use case that changes a task writes the changed value back with `update`. In the source it mutates the live object the in-memory store holds, then calls `update` with that same object.

Inputs the source takes from the environment are parameters:

- the generated id (`uuidv4()`);
- the clock (`new Date()`), as a natural number of milliseconds;
- `new Date(text)`, as a function `parseDate: string -> nat`.

`toISOString` is left abstract: `IsoString(instant)`.

Where the domain code does less than its own error messages or the HTTP validators (src/interface/http/validators/task.validators.ts) suggest, the model follows the domain code:

- `Task.create` accepts a due date equal to the current time: the code rejects only `dueDate < now`, although its message "Due date must be in the future" (src/domain/entities/task.entity.ts:41) speaks of a date strictly in the future.
- `updateDetails` checks only the title. The 5000-character bound on the description exists only in the HTTP validators (task.validators.ts:7, :16).
- User emails are unique only as far as the case-insensitive, untrimmed lookup in `existsByEmail` goes (`InMemoryUsers.PaddedEmailIsNeverFound`).
- The limit is capped at 100 by the list use case. Its lower bound comes only from the HTTP query validator (task.validators.ts:36-39).
- The two backends do not behave identically. The SQL search treats `%` and `_` as wildcards, and SQL `UPDATE` does not insert a missing task.

## Model

| member | source | states |
|---|---|---|
| ValueObjects.TransitionTable | src/domain/value-objects/task-status.ts:10-19 | PENDING may move only to IN_PROGRESS or CANCELLED; IN_PROGRESS only to COMPLETED or CANCELLED; COMPLETED and CANCELLED to nothing |
| ValueObjects.NoSelfLoopsNoReturn | src/domain/value-objects/task-status.ts:10-19 | no status moves to itself, nothing moves back to PENDING, PENDING cannot move to COMPLETED, terminal statuses are absorbing |
| ValueObjects.TransitionMovesForward | src/domain/value-objects/task-status.ts:10-15 | every legal transition strictly increases the workflow rank |
| ValueObjects.ChainRankGrows | src/domain/value-objects/task-status.ts:10-15 | along any chain of legal transitions the rank grows by at least one per step (induction over the chain) |
| ValueObjects.ChainIsAcyclic | src/domain/value-objects/task-status.ts:10-15 | the transition relation is acyclic: no status occurs twice in a chain |
| ValueObjects.ChainIsShort | src/domain/value-objects/task-status.ts:10-15 | every chain makes at most two transitions, and none from a terminal status |
| ValueObjects.ValidTransitions | src/domain/value-objects/task-status.ts:10-15 | each status has at most two successors, never itself and never PENDING, and it has none exactly when it is terminal (COMPLETED or CANCELLED) |
| ValueObjects.CanTransition | src/domain/value-objects/task-status.ts:17-19 | a permitted move changes the status, never leads back to PENDING and never leaves a terminal status; `TransitionTable` gives the table row by row |
| Errors.NotFound | src/domain/errors/domain-error.ts:12-16 | code ENTITY_NOT_FOUND and message "<entity> with id '<id>' not found" |
| Errors.Invalid | src/domain/errors/domain-error.ts:18-25 | code VALIDATION_ERROR, the message as given, details defaulting to the empty mapping |
| Errors.Conflict | src/domain/errors/domain-error.ts:27-31 | code CONFLICT and the caller's message unchanged |
| Errors.CodeIdentifiesKind | src/domain/errors/domain-error.ts:1-31 | two errors have the same code exactly when they are of the same kind |
| Text.Trim | src/domain/entities/task.entity.ts:32-46 | `trim()` yields a string that neither starts nor ends with whitespace, no longer than its input |
| Text.TrimStart | src/domain/entities/task.entity.ts:46 | the leading cut is all whitespace, and what remains is a suffix not starting with whitespace |
| Text.TrimEnd | src/domain/entities/task.entity.ts:46 | the trailing cut is all whitespace, and what remains is a prefix not ending with whitespace |
| Text.TrimCutsOnlySpace | src/domain/entities/task.entity.ts:46 | the trimmed string is an infix of the input with only whitespace cut off on either side |
| Text.TrimEmptyIffBlank | src/domain/entities/task.entity.ts:32 | `s.trim().length === 0` exactly when `s` is all whitespace |
| Text.TrimOfTrimmed | src/domain/entities/user.entity.ts:43-44 | trimming a trimmed string changes nothing |
| Text.TrimIdempotent | src/domain/entities/user.entity.ts:43-44 | trimming twice is trimming once |
| Text.ToLower | src/domain/entities/user.entity.ts:44 | `toLowerCase()` keeps the length and lower-cases character by character |
| Text.ToLowerIdempotent | src/infrastructure/repositories/in-memory-user.repository.ts:13 | lower-casing a lower-cased string changes nothing (induction) |
| Text.ToLowerKeepsTrimmed | src/domain/entities/user.entity.ts:44 | lower-casing a trimmed string leaves it trimmed |
| Text.Contains | src/infrastructure/repositories/in-memory-task.repository.ts:36-37 | `includes` finds a needle that starts the text and never finds one longer than the text; `ContainsIffOccurs` characterises it fully |
| Text.ContainsIffOccurs | src/infrastructure/repositories/in-memory-task.repository.ts:36-37 | `includes(q)` holds exactly when `q` occurs at some position |
| TaskEntity.CheckTitle | src/domain/entities/task.entity.ts:32-38 | a title is refused exactly when blank or over 255 characters once trimmed, with "Title is required" before "Title must be 255 characters or fewer" |
| TaskEntity.Create | src/domain/entities/task.entity.ts:22-56 | fails exactly for a blank or too-long title or a due date before `now`, with the first failing check's message; otherwise a PENDING task with trimmed title and description, priority defaulting to MEDIUM, tags to [], assignee and due date as given, createdAt = updatedAt = now, and well formed |
| TaskEntity.Transitioned | src/domain/entities/task.entity.ts:100-108 | succeeds exactly when the table allows the move; then only status and updatedAt change; otherwise the "Cannot transition from 'A' to 'B'" validation error |
| TaskEntity.UpdatedDetails | src/domain/entities/task.entity.ts:110-149 | fails exactly for a given blank or too-long title; otherwise each given field is written (title and description trimmed, null clears assignee and due date), omitted fields keep their values, id, status and createdAt never change, and updatedAt becomes `now` |
| TaskEntity.TransitionKeepsWellFormed | src/domain/entities/task.entity.ts:100-108 | a legal transition at a clock not behind the last update keeps the task well formed |
| TaskEntity.UpdateKeepsWellFormed | src/domain/entities/task.entity.ts:118-148 | an accepted update at a clock not behind the last update keeps the title valid and updatedAt >= createdAt |
| TaskEntity.UpdateWithoutTitleAlwaysSucceeds | src/domain/entities/task.entity.ts:118-146 | without a title nothing is validated: in particular a past due date is accepted |
| TaskEntity.EmptyUpdateOnlyTouches | src/domain/entities/task.entity.ts:148 | an update with no fields only moves updatedAt |
| TaskEntity.UpdateIsIdempotent | src/domain/entities/task.entity.ts:110-149 | applying the same accepted update twice at the same time equals applying it once |
| TaskEntity.Task.FromPersistence | src/domain/entities/task.entity.ts:61-63 | the object holds exactly the given record, unvalidated |
| TaskEntity.Task.ToJSON | src/domain/entities/task.entity.ts:151-153 | the snapshot is the record the object holds |
| TaskEntity.Task.Touch | src/domain/entities/task.entity.ts:155-157 | only updatedAt changes, to the clock |
| TaskEntity.Task.TransitionTo | src/domain/entities/task.entity.ts:100-108 | an error exactly when the move is illegal, leaving the task unchanged; otherwise the new record is what `Transitioned` gives |
| TaskEntity.Task.UpdateDetails | src/domain/entities/task.entity.ts:110-149 | on error no field is written; otherwise the new record is what `UpdatedDetails` gives |
| UserEntity.EmailTestDecidesPattern | src/domain/entities/user.entity.ts:36-37 | the position-based email test accepts exactly the language of `^[^\s@]+@[^\s@]+\.[^\s@]+$` |
| UserEntity.SplitGivesPattern | src/domain/entities/user.entity.ts:36 | a split at '@' and '.' into three non-empty runs without whitespace or '@' matches the pattern |
| UserEntity.PatternGivesSplit | src/domain/entities/user.entity.ts:36 | a string of the pattern splits at the end of its first run and after its second |
| UserEntity.SegmentOfSlice | src/domain/entities/user.entity.ts:36 | a non-empty slice is a run exactly when each of its characters is neither whitespace nor '@' |
| UserEntity.SplitInWords | src/domain/entities/user.entity.ts:36 | a matching split has no whitespace, one '@' and a '.' inside the domain part |
| UserEntity.WordsGiveSplit | src/domain/entities/user.entity.ts:36 | no whitespace, a single '@' and an inner '.' after it give a matching split |
| UserEntity.EmailShapeInWords | src/domain/entities/user.entity.ts:36-37 | the email test holds exactly when there is no whitespace, exactly one '@' with something before it, and a '.' after it that is neither first nor last in the domain part |
| UserEntity.Create | src/domain/entities/user.entity.ts:17-49 | fails exactly for a blank or over-100 name, a blank email or an email the pattern rejects, name checks first; otherwise name trimmed, email trimmed then lower-cased, role defaulting to MEMBER, createdAt = updatedAt = now |
| UserEntity.LowerKeepsEmailShape | src/domain/entities/user.entity.ts:44 | lower-casing an accepted email keeps it accepted |
| UserEntity.CreatedUserIsNormalised | src/domain/entities/user.entity.ts:41-48 | a created user has a non-empty trimmed name of at most 100 characters and a trimmed, lower-case, accepted email |
| UserEntity.ToJSON | src/domain/entities/user.entity.ts:74-76 | `toJSON` returns the same field values as the accessors |
| RepositoryContract.Criteria | src/domain/repositories/task.repository.ts:5-10 | a filter imposes at most one condition per field |
| RepositoryContract.MatchesFieldByField | src/infrastructure/repositories/in-memory-task.repository.ts:23-39 | a task passes exactly when it meets every present field, AND-combined; an absent field, or an empty assignee or search, imposes nothing |
| RepositoryContract.SearchIgnoresCase | src/infrastructure/repositories/in-memory-task.repository.ts:32-38 | two search strings that lower-case alike select the same tasks |
| RepositoryContract.Offset | src/infrastructure/repositories/in-memory-task.repository.ts:47 | the offset counts the items of the pages before `page`: offset plus one page ends at item `page * limit` |
| RepositoryContract.TotalPages | src/infrastructure/repositories/in-memory-task.repository.ts:55 | `Math.ceil(total / limit)` is never more than the number of items and is 0 exactly when there are none; `TotalPagesIsCeiling` proves it is the ceiling |
| RepositoryContract.TotalPagesIsCeiling | src/infrastructure/repositories/in-memory-task.repository.ts:55 | `Math.ceil(total / limit)`: the fewest pages holding all items, and 0 exactly when total is 0 |
| RepositoryContract.Window | src/infrastructure/repositories/in-memory-task.repository.ts:47-48 | `slice(offset, offset + limit)` is the run of at most `limit` items starting at `offset`, and empty past the end |
| RepositoryContract.WindowIsPartOf | src/infrastructure/repositories/in-memory-task.repository.ts:48 | every item of a page is an item of the list |
| RepositoryContract.PagesSuffice | src/infrastructure/repositories/in-memory-task.repository.ts:55 | `n` pages hold all items exactly when `n >= totalPages` |
| RepositoryContract.EveryItemIsOnItsPage | src/infrastructure/repositories/in-memory-task.repository.ts:46-55 | item `k` appears on page `k / limit + 1`, which lies within `totalPages` |
| RepositoryContract.PagePastEndIsEmpty | src/infrastructure/repositories/in-memory-task.repository.ts:46-55 | a page is empty exactly when its number exceeds `totalPages`, and is not an error |
| RepositoryContract.PagingExample | src/infrastructure/repositories/in-memory-task.repository.ts:46-55 | 25 items at 10 per page: 3 pages, page 3 holds 5 items, page 4 none |
| InMemoryTasks.Keep | src/infrastructure/repositories/in-memory-task.repository.ts:24 | one `filter` stage never lengthens the list |
| InMemoryTasks.Matching | src/infrastructure/repositories/in-memory-task.repository.ts:23-39 | filtering on all conditions at once never lengthens the list |
| InMemoryTasks.MatchingMembers | src/infrastructure/repositories/in-memory-task.repository.ts:23-39 | a task survives the filters exactly when it was in the list and meets every condition (induction) |
| InMemoryTasks.MatchingNothing | src/infrastructure/repositories/in-memory-task.repository.ts:21-39 | with no conditions every task is kept, in order |
| InMemoryTasks.HoldsAllSnoc | src/infrastructure/repositories/in-memory-task.repository.ts:23-39 | meeting the conditions plus one more is meeting both |
| InMemoryTasks.KeepAfterMatching | src/infrastructure/repositories/in-memory-task.repository.ts:23-39 | applying the filters one after another equals filtering on all of them at once (induction) |
| InMemoryTasks.MatchingCount | src/infrastructure/repositories/in-memory-task.repository.ts:21-46 | the number of matching tasks in insertion order equals the number of stored ids whose task matches (induction) |
| InMemoryTasks.InsertByCreated | src/infrastructure/repositories/in-memory-task.repository.ts:42-44 | an insertion step of the sort adds exactly the one task |
| InMemoryTasks.InsertNotAfter | src/infrastructure/repositories/in-memory-task.repository.ts:42-44 | inserting keeps every task no newer than a bound they all respect |
| InMemoryTasks.InsertKeepsDescending | src/infrastructure/repositories/in-memory-task.repository.ts:42-44 | inserting into a newest-first list keeps it newest first (induction) |
| InMemoryTasks.SortByCreatedDesc | src/infrastructure/repositories/in-memory-task.repository.ts:42-44 | the sort returns a permutation of its input ordered by createdAt, newest first |
| InMemoryTasks.CreatedAt | src/infrastructure/repositories/in-memory-task.repository.ts:42-44 | the tasks created at one instant form a subsequence no longer than the list |
| InMemoryTasks.CreatedAtCons | src/infrastructure/repositories/in-memory-task.repository.ts:42-44 | the tasks created at an instant among `[x] + s` are those of `x`, then those of `s` |
| InMemoryTasks.InsertIsStable | src/infrastructure/repositories/in-memory-task.repository.ts:42-44 | inserting places the new task before the tasks of the same instant, keeping theirs in order (induction) |
| InMemoryTasks.SortIsStable | src/infrastructure/repositories/in-memory-task.repository.ts:42-44 | the sort is stable: the tasks of each instant keep their insertion order (induction) |
| InMemoryTasks.WindowKeepsDescending | src/infrastructure/repositories/in-memory-task.repository.ts:42-48 | a page of a newest-first list is newest first |
| InMemoryTasks.PageOfMatches | src/infrastructure/repositories/in-memory-task.repository.ts:21-48 | every task on a page of the sorted matches is a listed task meeting every condition, and the page is newest first |
| InMemoryTasks.TotalCountsMatches | src/infrastructure/repositories/in-memory-task.repository.ts:21-46 | `total` equals the number of stored tasks that pass the filter |
| InMemoryTasks.FindAllFacts | src/infrastructure/repositories/in-memory-task.repository.ts:17-57 | the count, order and membership facts of one `findAll` result |
| InMemoryTasks.ApplyFilters | src/infrastructure/repositories/in-memory-task.repository.ts:21-39 | the four successive `filter` reassignments leave exactly the tasks meeting every condition of the filter, in store order |
| InMemoryTasks.InMemoryTaskRepository.Values | src/infrastructure/repositories/in-memory-task.repository.ts:21 | `Array.from(store.values())` lists one task per stored id |
| InMemoryTasks.InMemoryTaskRepository.FindById | src/infrastructure/repositories/in-memory-task.repository.ts:12-15 | the stored task when the id is present, with that id; null otherwise |
| InMemoryTasks.InMemoryTaskRepository.FindAll | src/infrastructure/repositories/in-memory-task.repository.ts:17-57 | `total` counts the stored tasks that pass the filter; `data` is the requested window of the matches sorted newest first, so every item passes the filter and the page is newest first; page and limit are echoed and `totalPages` is the ceiling of total / limit |
| InMemoryTasks.InMemoryTaskRepository.Save | src/infrastructure/repositories/in-memory-task.repository.ts:59-61 | sets the entry for the task's id and leaves every other entry; a new id goes last in iteration order |
| InMemoryTasks.InMemoryTaskRepository.Update | src/infrastructure/repositories/in-memory-task.repository.ts:63-65 | the same as save, so an absent id is inserted |
| InMemoryTasks.InMemoryTaskRepository.Delete | src/infrastructure/repositories/in-memory-task.repository.ts:67-69 | true exactly when the id was present; afterwards it is absent, and the other entries and their order are kept |
| InMemoryTasks.InMemoryTaskRepository.ExistsById | src/infrastructure/repositories/in-memory-task.repository.ts:71-73 | true exactly when the id is stored, which is when `findById` finds it |
| Common.ValuesInOrder | src/infrastructure/repositories/in-memory-task.repository.ts:21 | the values of the map in insertion order, one per id |
| Common.Without | src/infrastructure/repositories/in-memory-task.repository.ts:68 | deleting from a `Map` removes exactly that key from the iteration order and keeps it duplicate-free |
| InMemoryUsers.InMemoryUserRepository.FindById | src/infrastructure/repositories/in-memory-user.repository.ts:7-9 | the stored user for the id, or null |
| InMemoryUsers.InMemoryUserRepository.FindByEmail | src/infrastructure/repositories/in-memory-user.repository.ts:11-18 | null exactly when no stored email equals the argument lower-cased (not trimmed); otherwise the first such user in insertion order |
| InMemoryUsers.InMemoryUserRepository.Save | src/infrastructure/repositories/in-memory-user.repository.ts:20-22 | inserts or overwrites by id; no other entry changes |
| InMemoryUsers.InMemoryUserRepository.ExistsByEmail | src/infrastructure/repositories/in-memory-user.repository.ts:24-27 | true exactly when `findByEmail` would find a user |
| InMemoryUsers.CreatedUserFoundUnderAnyCasing | src/infrastructure/repositories/in-memory-user.repository.ts:13 | a created and stored user is found under any casing of its trimmed email |
| InMemoryUsers.PaddedEmailIsNeverFound | src/infrastructure/repositories/in-memory-user.repository.ts:13 | an email with leading whitespace never matches a stored (trimmed) one: the lookup ignores case but not whitespace |
| PgTasks.DigitChar | src/infrastructure/repositories/pg-task.repository.ts:60 | a digit below ten prints as one of '0'..'9' |
| PgTasks.ParseDecimal | src/infrastructure/repositories/pg-task.repository.ts:87 | `parseInt(text, 10)` of a digit string is 0 exactly when every digit is '0'; `ParseDecimalOfDecimal` proves it reads a printed number back |
| PgTasks.Decimal | src/infrastructure/repositories/pg-task.repository.ts:60 | a number interpolated into a template literal prints as a non-empty string of digits |
| PgTasks.ParseDecimalOfDecimal | src/infrastructure/repositories/pg-task.repository.ts:87 | `parseInt` reads the printed digits of a number back as that number (induction) |
| PgTasks.Placeholder | src/infrastructure/repositories/pg-task.repository.ts:60 | `$n` is '$' followed by the digits of `n` |
| PgTasks.PlaceholdersDistinct | src/infrastructure/repositories/pg-task.repository.ts:60-76 | two placeholders are equal exactly when their numbers are |
| PgTasks.ConditionsFrom | src/infrastructure/repositories/pg-task.repository.ts:59-77 | one condition per criterion |
| PgTasks.ParamsOf | src/infrastructure/repositories/pg-task.repository.ts:59-77 | one parameter per criterion |
| PgTasks.ConditionsAt | src/infrastructure/repositories/pg-task.repository.ts:59-77 | the `i`-th condition tests the `i`-th criterion on placeholder `$(start+i)`, and the `i`-th parameter is that criterion's value (induction) |
| PgTasks.ConditionsSnoc | src/infrastructure/repositories/pg-task.repository.ts:59-77 | one more criterion appends exactly one condition and one parameter (induction) |
| PgTasks.AlignedStep | src/infrastructure/repositories/pg-task.repository.ts:60-61 | one push of a condition and its parameter, with the counter's post-increment, keeps conditions, parameters and counter in step |
| PgTasks.BuildFilter | src/infrastructure/repositories/pg-task.repository.ts:55-77 | each present filter field appends one condition and one parameter, in the order status, priority, assignee, search; placeholders run from $1; the search placeholder serves both columns and its parameter is `%`+search+`%`; afterwards `paramIdx = params.length + 1` |
| PgTasks.Join | src/infrastructure/repositories/pg-task.repository.ts:80 | joining no parts gives "" and one part gives that part |
| PgTasks.WhereClause | src/infrastructure/repositories/pg-task.repository.ts:79-80 | the WHERE clause is empty exactly when there are no conditions |
| PgTasks.BuildQueries | src/infrastructure/repositories/pg-task.repository.ts:79-95 | the count query takes the filter parameters; the data query's LIMIT is `$(n+1)` and OFFSET `$(n+2)`, matching the arguments `[...params, limit, (page-1)*limit]` |
| PgTasks.PlaceholdersMatchParams | src/infrastructure/repositories/pg-task.repository.ts:59-77 | for every condition of the filter, its placeholder `$k` is bound to the `k`-th parameter, the value of the criterion it tests; any other condition has a different placeholder |
| PgTasks.WhereEmptyIffNoFilter | src/infrastructure/repositories/pg-task.repository.ts:59-80 | no WHERE clause exactly when no status, no priority and no non-empty assignee or search is given |
| PgTasks.RowToEntity | src/infrastructure/repositories/pg-task.repository.ts:25-38 | null tags become []; the other columns are copied |
| PgTasks.RowRoundTrip | src/infrastructure/repositories/pg-task.repository.ts:25-38 | a saved task reads back unchanged, and a row reads back to itself once its null tags are replaced by [] |
| PgTasks.PageFromRows | src/infrastructure/repositories/pg-task.repository.ts:87-103 | `total` is the parsed count, one entity per row in order, page and limit echoed, `totalPages` the ceiling of total / limit |
| PgTasks.RowsToEntities | src/infrastructure/repositories/pg-task.repository.ts:98 | one entity per row, in order |
| PgTasks.DeleteSucceeded | src/infrastructure/repositories/pg-task.repository.ts:150 | true exactly when the driver reports a row count above zero; a missing count is false |
| Dtos.ToTaskResponse | src/application/use-cases/task-mapper.ts:4-16 | every field of the task is carried over, createdAt and updatedAt as the text of the same instants, and the due date as the text of its instant or `null` exactly when there is none |
| Dtos.TaskOfResponse | src/application/use-cases/task-mapper.ts:4-16 | the task can be read back from its response: `toTaskResponse` of the read-back task is the response |
| Dtos.TaskResponseIsFaithful | src/application/use-cases/task-mapper.ts:4-16 | two tasks have the same response exactly when they are the same task |
| Dtos.UserResponseIsFaithful | src/application/use-cases/user-mapper.ts:4-13 | two users have the same response exactly when they are the same user |
| Dtos.ToUserResponse | src/application/use-cases/user-mapper.ts:4-13 | id, name, email and role are carried over, and the two dates as the text of the same instants |
| Dtos.ToTaskResponses | src/application/use-cases/list-tasks.use-case.ts:26 | `data.map(toTaskResponse)` keeps length and order |
| UseCases.FilterOf | src/application/use-cases/list-tasks.use-case.ts:11-17 | the repository receives the query's status, priority, assignee and search unchanged |
| UseCases.PaginationOf | src/application/use-cases/list-tasks.use-case.ts:18-21 | page defaults to 1; limit defaults to 20 and is capped at 100 but not raised; valid query values give valid pagination |
| UseCases.ListTasksUseCase.Execute | src/application/use-cases/list-tasks.use-case.ts:8-28 | the filter is passed on unchanged; total, page, limit and totalPages come from the repository; `data` is the repository page mapped one to one, each item the response of a stored task that passes the filter |
| UseCases.ListTwoTasks | src/application/use-cases/list-tasks.use-case.ts:8-28 | two stored tasks and no filter: total 2, two items, page 1 of 1 |
| UseCases.ListNoneCompleted | src/application/use-cases/list-tasks.use-case.ts:8-28 | two pending tasks filtered on COMPLETED: nothing listed, total 0, no pages |
| UseCases.CreateParamsOf | src/application/use-cases/create-task.use-case.ts:14-21 | the fields are forwarded; an absent or empty due-date string gives no due date, any other is parsed |
| UseCases.CreateTaskUseCase.Execute | src/application/use-cases/create-task.use-case.ts:13-27 | a validation error saves nothing; otherwise the task is stored under its id, a new id is added last and an existing id keeps its place in the insertion order, no other entry changes, and the PENDING response carries the given title, priority and tags; a well-formed store stays well formed |
| UseCases.GetTaskUseCase.Execute | src/application/use-cases/get-task.use-case.ts:9-15 | not-found ("Task", id) exactly when the id is absent; otherwise the stored task's response; nothing changes |
| UseCases.CreateThenGet | src/application/use-cases/get-task.use-case.ts:9-15 | a task just created is returned by its id with its trimmed title and PENDING |
| UseCases.DetailsOf | src/application/use-cases/update-task.use-case.ts:19-26 | title, description, priority, assignee and tags are passed on as given; the due date is cleared by `null`, left alone when absent or empty, and otherwise parsed |
| UseCases.DueDatePatch | src/application/use-cases/update-task.use-case.ts:24 | null clears, a non-empty text sets the parsed date, and absent or "" leaves the due date |
| UseCases.DueDateAfterUpdate | src/application/use-cases/update-task.use-case.ts:19-26 | after an accepted update the due date is cleared, set or kept according to those three cases |
| UseCases.PastDueDateAcceptedOnUpdate | src/application/use-cases/update-task.use-case.ts:24 | a due date before the clock is accepted on update and stored |
| UseCases.UpdateTaskUseCase.Execute | src/application/use-cases/update-task.use-case.ts:13-33 | not-found for a missing id with nothing changed; a refused title writes nothing; otherwise the stored task becomes what `updateDetails` gives and is returned; a well-formed store stays well formed at a clock not behind |
| UseCases.UpdateTaskStatusUseCase.Execute | src/application/use-cases/update-task-status.use-case.ts:13-31 | not-found for a missing id; an illegal move returns the transition error and writes nothing; a legal one stores and returns the new status with updatedAt = now |
| UseCases.DeleteTaskUseCase.Execute | src/application/use-cases/delete-task.use-case.ts:11-17 | not-found ("Task", id) exactly when the id was absent; afterwards the id is absent, the store lost only that entry and the insertion order only that id |
| UseCases.DeleteTwice | src/application/use-cases/delete-task.use-case.ts:11-17 | the first delete succeeds; a second delete and a later get both report not-found |
| UseCases.ConflictMessage | src/application/use-cases/create-user.use-case.ts:17-19 | the message is "A user with email '", the email exactly as given, then "' already exists" |
| UseCases.SavingNewEmailKeepsUnique | src/application/use-cases/create-user.use-case.ts:15-28 | storing a user whose email no stored user has keeps emails unique |
| UseCases.CreateUserUseCase.Execute | src/application/use-cases/create-user.use-case.ts:14-32 | an email found by the lookup gives the conflict "A user with email '…' already exists" before any validation, and nothing is saved; a validation error saves nothing; otherwise the user is stored under its id with trimmed name, normalised email and role defaulting to MEMBER, a new id added last to the insertion order and an existing id kept in its place; with a trimmed email, unique emails stay unique |

## Left out

- HTTP layer (Express app, controllers, routes, middleware) and the zod validators. Their bounds appear only as the preconditions they supply: `ValidPagination` (page >= 1, limit >= 1) and `UseCases.ValidQuery`. The description and tag limits are enforced nowhere in the core and are not modelled.
- Logging, the process bootstrap, the database pool and the OpenAPI document: I/O with no logic of the core.
- Async: every Promise-returning method is a synchronous method.
- Aliasing of the live object: the in-memory stores return the stored object itself, and the update use cases mutate it before calling `update`. The model stores values and writes the new value back explicitly. The stored state after each use case is the same, but a mutation through another reference to the same object is not modelled.
- Text.ToLower: lower-cases only 'A'..'Z'; JavaScript's `toLowerCase` also maps non-ASCII letters.
- Text.IsSpace is the ECMAScript whitespace and line-terminator set, but lengths count UTF-16 code units in the source and characters here.
- TaskEntity.Create: an unparsable due date (`Invalid Date`, which compares false with `<`) is not modelled; `parseDate` always yields an instant.
- InMemoryTasks.SortByCreatedDesc: the in-place `Array.prototype.sort` is modelled as a stable insertion sort on a sequence, because a stable sort's result is determined by its input: the insertion sort gives the same stable newest-first permutation. Rearranging the array in place is not captured.
- PgTasks: executing SQL is not modelled: ILIKE with its `%`/`_` wildcards, ORDER BY with its tie order, COUNT, and UPDATE's no-op on a missing id. So is the text of the INSERT and UPDATE statements of `save` and `update`, and `findById`'s query.
- PgTasks.TaskRow: the row type gives status and priority as the enums. The schema declares both columns as VARCHAR without a constraint, so a column could hold any other string, which the unchecked casts `row.status as TaskStatus` and `row.priority as TaskPriority` pass through; such a row is not modelled.
- PgTasks.PageFromRows: the count text is required to be a non-empty string of digits, as PostgreSQL returns a count; `parseInt` of other text, which gives NaN for an empty string, is not modelled.
- Dtos: `toISOString` is kept abstract as `IsoString(instant)`.
- UseCases.CreateUserUseCase.Execute: email uniqueness is proved only for an already-trimmed email; with surrounding whitespace the lookup misses the stored, trimmed address (`InMemoryUsers.PaddedEmailIsNeverFound`).
- `User.fromPersistence` (src/domain/entities/user.entity.ts:51-53): no modelled component reconstructs users from storage.
- The HTTP status a conflict is sent with belongs to the error-handling middleware and is not modelled.
