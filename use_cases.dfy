/** The application use cases: each holds the repository it was built
    with and composes the entity operations with the repository's. A
    repository hands out values, so a use case that changes a task writes
    the changed value back with `Update`. */
module UseCases {
  import opened Common
  import opened Errors
  import opened Text
  import opened ValueObjects
  import opened TaskEntity
  import UserEntity
  import opened RepositoryContract
  import opened InMemoryTasks
  import opened InMemoryUsers
  import opened Dtos

  const DefaultPage: nat := 1
  const DefaultLimit: nat := 20
  const MaxLimit: nat := 100

  /** Every stored task is well formed. */
  predicate AllWellFormed(store: map<string, TaskProps>) {
    forall id :: id in store ==> WellFormed(store[id])
  }

  /** The clock reads no earlier than any stored task's last update. */
  predicate ClockNotBehind(store: map<string, TaskProps>, now: nat) {
    forall id :: id in store ==> store[id].updatedAt <= now
  }

  // ---------------------------------------------------------------- list

  /** `ListTasksDto`; `None` is an omitted query parameter. */
  datatype ListTasksDto = ListTasksDto(
    status: Option<TaskStatus>,
    priority: Option<TaskPriority>,
    assigneeId: Option<string>,
    search: Option<string>,
    page: Option<nat>,
    limit: Option<nat>)

  /** What the query validator guarantees of page and limit when given. */
  predicate ValidQuery(dto: ListTasksDto) {
    (dto.page.Some? ==> dto.page.value >= 1) && (dto.limit.Some? ==> dto.limit.value >= 1)
  }

  /** The filter is passed on field for field; page and limit are not
      part of it. */
  function FilterOf(dto: ListTasksDto): (f: TaskFilter)
    ensures f.status == dto.status && f.priority == dto.priority
    ensures f.assigneeId == dto.assigneeId && f.search == dto.search
  {
    TaskFilter(dto.status, dto.priority, dto.assigneeId, dto.search)
  }

  /** `page: dto.page ?? 1` and `limit: Math.min(dto.limit ?? 20, 100)`. */
  function PaginationOf(dto: ListTasksDto): (p: PaginationParams)
    ensures ValidQuery(dto) ==> ValidPagination(p)
    ensures dto.page.None? ==> p.page == DefaultPage
    ensures dto.page.Some? ==> p.page == dto.page.value
    ensures dto.limit.None? ==> p.limit == DefaultLimit
    ensures p.limit <= MaxLimit
    ensures dto.limit.Some? ==> p.limit == if dto.limit.value <= MaxLimit then dto.limit.value else MaxLimit
  {
    PaginationParams(dto.page.GetOr(DefaultPage), Min(dto.limit.GetOr(DefaultLimit), MaxLimit))
  }

  /** `ListTasksUseCase`. */
  class ListTasksUseCase {
    const taskRepository: InMemoryTaskRepository

    constructor (taskRepository: InMemoryTaskRepository)
      ensures this.taskRepository == taskRepository
    {
      this.taskRepository := taskRepository;
    }

    /** `execute(dto)`: the repository's page of matching tasks, as
        responses; the counts and the page figures are passed through. */
    method Execute(dto: ListTasksDto) returns (r: PaginatedResult<TaskResponse>)
      requires taskRepository.Valid() && ValidQuery(dto)
      ensures var p := PaginationOf(dto);
        && r.page == p.page && r.limit == p.limit
        && r.total == |PassingIds(taskRepository.store, FilterOf(dto))|
        && r.totalPages == TotalPages(r.total, r.limit)
        && r.data == ToTaskResponses(Window(SortByCreatedDesc(Matching(taskRepository.Values(), Criteria(FilterOf(dto)))), Offset(p), p.limit))
      ensures |r.data| <= r.limit
      ensures forall i :: 0 <= i < |r.data| ==>
        exists t :: t in taskRepository.store.Values && Matches(t, FilterOf(dto)) && r.data[i] == ToTaskResponse(t)
    {
      var result := taskRepository.FindAll(FilterOf(dto), PaginationOf(dto));
      r := PaginatedResult(ToTaskResponses(result.data), result.total, result.page, result.limit, result.totalPages);
      forall i | 0 <= i < |r.data|
        ensures exists t :: t in taskRepository.store.Values && Matches(t, FilterOf(dto)) && r.data[i] == ToTaskResponse(t)
      {
        assert result.data[i] in result.data;
      }
    }
  }

  /** A repository holding two tasks, saved in the order a, b. */
  method TwoTaskRepository(a: TaskProps, b: TaskProps) returns (repo: InMemoryTaskRepository)
    requires a.id != b.id
    ensures fresh(repo) && repo.Valid()
    ensures repo.order == [a.id, b.id] && repo.store == map[a.id := a, b.id := b]
  {
    repo := new InMemoryTaskRepository();
    repo.Save(a);
    repo.Save(b);
  }

  /** Two stored tasks and no filter: both are listed, on page 1 of 1. */
  method ListTwoTasks(a: TaskProps, b: TaskProps) returns (r: PaginatedResult<TaskResponse>)
    requires a.id != b.id
    ensures r.total == 2 && |r.data| == 2 && r.page == 1 && r.totalPages == 1
  {
    var repo := TwoTaskRepository(a, b);
    var useCase := new ListTasksUseCase(repo);
    var noFilter := ListTasksDto(None, None, None, None, None, None);
    assert Criteria(FilterOf(noFilter)) == [];
    TotalCountsMatches(repo.order, repo.store, FilterOf(noFilter));
    MatchingNothing(repo.Values());
    r := useCase.Execute(noFilter);
  }

  /** Two pending tasks filtered on COMPLETED: nothing is listed. */
  method ListNoneCompleted(a: TaskProps, b: TaskProps) returns (r: PaginatedResult<TaskResponse>)
    requires a.id != b.id && a.status == Pending && b.status == Pending
    ensures r.total == 0 && r.data == [] && r.totalPages == 0
  {
    var repo := TwoTaskRepository(a, b);
    var useCase := new ListTasksUseCase(repo);
    var completed := ListTasksDto(Some(Completed), None, None, None, None, None);
    var cs := Criteria(FilterOf(completed));
    assert cs == [StatusIs(Completed)];
    TotalCountsMatches(repo.order, repo.store, FilterOf(completed));
    var values := repo.Values();
    assert values == [a, b];
    forall t | t in values ensures !HoldsAll(t, cs) {
      assert StatusIs(Completed) in cs && !Holds(t, StatusIs(Completed));
    }
    MatchingNone(values, cs);
    r := useCase.Execute(completed);
  }

  // -------------------------------------------------------------- create

  /** `CreateTaskDto`; `dueDate` is ISO text. */
  datatype CreateTaskDto = CreateTaskDto(
    title: string,
    description: Option<string>,
    priority: Option<TaskPriority>,
    assigneeId: Option<string>,
    dueDate: Option<string>,
    tags: Option<seq<string>>)

  /** The arguments `execute` passes to `Task.create`; `parseDate` stands
      for `new Date(text)`. An omitted or empty due date is no due date. */
  function CreateParamsOf(dto: CreateTaskDto, parseDate: string -> nat): (p: CreateParams)
    ensures p.dueDate.None? <==> dto.dueDate.None? || dto.dueDate.value == ""
    ensures p.dueDate.Some? ==> p.dueDate.value == parseDate(dto.dueDate.value)
    ensures p.title == dto.title && p.description == dto.description && p.priority == dto.priority
    ensures p.assigneeId == dto.assigneeId && p.tags == dto.tags
  {
    CreateParams(
      title := dto.title,
      description := dto.description,
      priority := dto.priority,
      assigneeId := dto.assigneeId,
      dueDate := if dto.dueDate.Some? && dto.dueDate.value != "" then Some(parseDate(dto.dueDate.value)) else None,
      tags := dto.tags)
  }

  /** `CreateTaskUseCase`. */
  class CreateTaskUseCase {
    const taskRepository: InMemoryTaskRepository

    constructor (taskRepository: InMemoryTaskRepository)
      ensures this.taskRepository == taskRepository
    {
      this.taskRepository := taskRepository;
    }

    /** `execute(dto)`, with the generated id and the clock as inputs: a
        task `Task.create` refuses is not saved; an accepted one is stored
        under its id and returned as a response. */
    method Execute(dto: CreateTaskDto, parseDate: string -> nat, id: string, now: nat) returns (r: Result<TaskResponse>)
      requires taskRepository.Valid()
      modifies taskRepository
      ensures taskRepository.Valid()
      ensures var created := Create(CreateParamsOf(dto, parseDate), id, now);
        && (created.Err? ==> r == Err(created.error)
                             && taskRepository.store == old(taskRepository.store)
                             && taskRepository.order == old(taskRepository.order))
        && (created.Ok? ==> r == Ok(ToTaskResponse(created.value))
                            && taskRepository.store == old(taskRepository.store)[id := created.value])
      ensures r.Ok? ==> && r.value.status == Pending && r.value.title == Trim(dto.title)
                        && r.value.priority == dto.priority.GetOr(Medium)
                        && r.value.tags == dto.tags.GetOr([])
      ensures r.Ok? ==> taskRepository.order == if id in old(taskRepository.store) then old(taskRepository.order)
                                                else old(taskRepository.order) + [id]
      ensures AllWellFormed(old(taskRepository.store)) ==> AllWellFormed(taskRepository.store)
    {
      var created := Create(CreateParamsOf(dto, parseDate), id, now);
      if created.Err? {
        return Err(created.error);
      }
      taskRepository.Save(created.value);
      return Ok(ToTaskResponse(created.value));
    }
  }

  // ----------------------------------------------------------------- get

  /** `GetTaskUseCase`. */
  class GetTaskUseCase {
    const taskRepository: InMemoryTaskRepository

    constructor (taskRepository: InMemoryTaskRepository)
      ensures this.taskRepository == taskRepository
    {
      this.taskRepository := taskRepository;
    }

    /** `execute(id)`: the stored task as a response, or not-found. It
        changes nothing. */
    method Execute(id: string) returns (r: Result<TaskResponse>)
      requires taskRepository.Valid()
      ensures r.Ok? <==> id in taskRepository.store
      ensures r.Err? ==> r.error == NotFound("Task", id)
      ensures r.Ok? ==> r.value == ToTaskResponse(taskRepository.store[id]) && r.value.id == id
    {
      var task := taskRepository.FindById(id);
      if task.None? {
        return Err(NotFound("Task", id));
      }
      return Ok(ToTaskResponse(task.value));
    }
  }

  /** A task just created is returned by id, with its trimmed title. */
  method CreateThenGet(repo: InMemoryTaskRepository, dto: CreateTaskDto, parseDate: string -> nat, id: string, now: nat)
    returns (r: Result<TaskResponse>)
    requires repo.Valid() && Create(CreateParamsOf(dto, parseDate), id, now).Ok?
    modifies repo
    ensures r.Ok? && r.value.id == id && r.value.title == Trim(dto.title) && r.value.status == Pending
  {
    var create := new CreateTaskUseCase(repo);
    var created := create.Execute(dto, parseDate, id, now);
    var get := new GetTaskUseCase(repo);
    r := get.Execute(id);
  }

  // -------------------------------------------------------------- update

  /** `UpdateTaskDto`: `assigneeId` and `dueDate` may be omitted, `null` or
      given; `dueDate` is ISO text. */
  datatype UpdateTaskDto = UpdateTaskDto(
    title: Option<string>,
    description: Option<string>,
    priority: Option<TaskPriority>,
    assigneeId: Patch<string>,
    dueDate: Patch<string>,
    tags: Option<seq<string>>)

  /** `dto.dueDate === null ? null : dto.dueDate ? new Date(dto.dueDate) :
      undefined`: `null` clears, a non-empty text sets, and an omitted or
      empty text leaves the due date as it is. */
  function DueDatePatch(p: Patch<string>, parseDate: string -> nat): (r: Patch<nat>)
    ensures r.Clear? <==> p.Clear?
    ensures r.Unset? <==> p.Unset? || p == Set("")
    ensures r.Set? ==> p.Set? && r.value == parseDate(p.value)
  {
    match p
    case Clear => Clear
    case Set(text) => if text != "" then Set(parseDate(text)) else Unset
    case Unset => Unset
  }

  /** The arguments `execute` passes to `updateDetails`: every field as
      given, except the due date, whose text is parsed. */
  function DetailsOf(dto: UpdateTaskDto, parseDate: string -> nat): (d: DetailsParams)
    ensures d.title == dto.title && d.description == dto.description
    ensures d.priority == dto.priority && d.assigneeId == dto.assigneeId && d.tags == dto.tags
    ensures d.dueDate.Clear? <==> dto.dueDate.Clear?
    ensures d.dueDate.Unset? <==> dto.dueDate.Unset? || dto.dueDate == Set("")
    ensures d.dueDate.Set? ==> d.dueDate.value == parseDate(dto.dueDate.value)
  {
    DetailsParams(dto.title, dto.description, dto.priority, dto.assigneeId, DueDatePatch(dto.dueDate, parseDate), dto.tags)
  }

  /** The due date after an update, case by case. */
  lemma DueDateAfterUpdate(t: TaskProps, dto: UpdateTaskDto, parseDate: string -> nat, now: nat)
    requires UpdatedDetails(t, DetailsOf(dto, parseDate), now).Ok?
    ensures var d := UpdatedDetails(t, DetailsOf(dto, parseDate), now).value.dueDate;
      && (dto.dueDate.Clear? ==> d == None)
      && (dto.dueDate.Set? && dto.dueDate.value != "" ==> d == Some(parseDate(dto.dueDate.value)))
      && (dto.dueDate.Unset? || dto.dueDate == Set("") ==> d == t.dueDate)
  {
  }

  /** A due date in the past is accepted on update: only `Task.create`
      checks it. */
  lemma PastDueDateAcceptedOnUpdate(t: TaskProps, dto: UpdateTaskDto, parseDate: string -> nat, now: nat)
    requires dto.title.None? && dto.dueDate.Set? && dto.dueDate.value != ""
    requires parseDate(dto.dueDate.value) < now
    ensures UpdatedDetails(t, DetailsOf(dto, parseDate), now).Ok?
    ensures UpdatedDetails(t, DetailsOf(dto, parseDate), now).value.dueDate == Some(parseDate(dto.dueDate.value))
  {
    UpdateWithoutTitleAlwaysSucceeds(t, DetailsOf(dto, parseDate), now);
  }

  /** `UpdateTaskUseCase`. */
  class UpdateTaskUseCase {
    const taskRepository: InMemoryTaskRepository

    constructor (taskRepository: InMemoryTaskRepository)
      ensures this.taskRepository == taskRepository
    {
      this.taskRepository := taskRepository;
    }

    /** `execute(id, dto)`: not-found for a missing id; otherwise the
        stored task updated by `updateDetails`, and nothing written when
        that refuses the title. */
    method Execute(id: string, dto: UpdateTaskDto, parseDate: string -> nat, now: nat) returns (r: Result<TaskResponse>)
      requires taskRepository.Valid()
      modifies taskRepository
      ensures taskRepository.Valid()
      ensures taskRepository.order == old(taskRepository.order)
      ensures id !in old(taskRepository.store) ==>
        r == Err(NotFound("Task", id)) && taskRepository.store == old(taskRepository.store)
      ensures id in old(taskRepository.store) ==>
        var updated := UpdatedDetails(old(taskRepository.store)[id], DetailsOf(dto, parseDate), now);
        && (updated.Err? ==> r == Err(updated.error) && taskRepository.store == old(taskRepository.store))
        && (updated.Ok? ==> r == Ok(ToTaskResponse(updated.value))
                            && taskRepository.store == old(taskRepository.store)[id := updated.value])
      ensures AllWellFormed(old(taskRepository.store)) && ClockNotBehind(old(taskRepository.store), now) ==>
        AllWellFormed(taskRepository.store)
    {
      var found := taskRepository.FindById(id);
      if found.None? {
        return Err(NotFound("Task", id));
      }
      var task := new Task.FromPersistence(found.value);
      var err := task.UpdateDetails(DetailsOf(dto, parseDate), now);
      if err.Some? {
        return Err(err.value);
      }
      if AllWellFormed(taskRepository.store) && ClockNotBehind(taskRepository.store, now) {
        UpdateKeepsWellFormed(found.value, DetailsOf(dto, parseDate), now);
      }
      taskRepository.Update(task.props);
      return Ok(ToTaskResponse(task.props));
    }
  }

  // ------------------------------------------------------- update status

  /** `UpdateTaskStatusDto`. */
  datatype UpdateTaskStatusDto = UpdateTaskStatusDto(status: TaskStatus)

  /** `UpdateTaskStatusUseCase`. */
  class UpdateTaskStatusUseCase {
    const taskRepository: InMemoryTaskRepository

    constructor (taskRepository: InMemoryTaskRepository)
      ensures this.taskRepository == taskRepository
    {
      this.taskRepository := taskRepository;
    }

    /** `execute(id, dto)`: not-found for a missing id; a refused
        transition writes nothing; a legal one stores the new status and
        returns it. */
    method Execute(id: string, dto: UpdateTaskStatusDto, now: nat) returns (r: Result<TaskResponse>)
      requires taskRepository.Valid()
      modifies taskRepository
      ensures taskRepository.Valid()
      ensures taskRepository.order == old(taskRepository.order)
      ensures id !in old(taskRepository.store) ==>
        r == Err(NotFound("Task", id)) && taskRepository.store == old(taskRepository.store)
      ensures id in old(taskRepository.store) ==>
        var t := old(taskRepository.store)[id];
        && (!CanTransition(t.status, dto.status) ==>
              r == Err(Invalid(TransitionMessage(t.status, dto.status)))
              && taskRepository.store == old(taskRepository.store))
        && (CanTransition(t.status, dto.status) ==>
              r == Ok(ToTaskResponse(t.(status := dto.status, updatedAt := now)))
              && taskRepository.store == old(taskRepository.store)[id := t.(status := dto.status, updatedAt := now)])
      ensures r.Ok? ==> r.value.status == dto.status && taskRepository.store[id].status == dto.status
      ensures AllWellFormed(old(taskRepository.store)) && ClockNotBehind(old(taskRepository.store), now) ==>
        AllWellFormed(taskRepository.store)
    {
      var found := taskRepository.FindById(id);
      if found.None? {
        return Err(NotFound("Task", id));
      }
      var task := new Task.FromPersistence(found.value);
      var err := task.TransitionTo(dto.status, now);
      if err.Some? {
        return Err(err.value);
      }
      if AllWellFormed(taskRepository.store) && ClockNotBehind(taskRepository.store, now) {
        TransitionKeepsWellFormed(found.value, dto.status, now);
      }
      taskRepository.Update(task.props);
      return Ok(ToTaskResponse(task.props));
    }
  }

  // -------------------------------------------------------------- delete

  /** `DeleteTaskUseCase`. */
  class DeleteTaskUseCase {
    const taskRepository: InMemoryTaskRepository

    constructor (taskRepository: InMemoryTaskRepository)
      ensures this.taskRepository == taskRepository
    {
      this.taskRepository := taskRepository;
    }

    /** `execute(id)`: removes the task, or reports not-found when the
        repository had none; `err` is the thrown error, if any. */
    method Execute(id: string) returns (err: Option<DomainError>)
      requires taskRepository.Valid()
      modifies taskRepository
      ensures taskRepository.Valid()
      ensures err.None? <==> id in old(taskRepository.store)
      ensures err.Some? ==> err.value == NotFound("Task", id)
      ensures taskRepository.store == old(taskRepository.store) - {id}
      ensures taskRepository.order == Without(old(taskRepository.order), id)
      ensures id !in taskRepository.store
    {
      var deleted := taskRepository.Delete(id);
      if !deleted {
        return Some(NotFound("Task", id));
      }
      return None;
    }
  }

  /** Deleting a task succeeds once; a second delete and a later get both
      report not-found. */
  method DeleteTwice(repo: InMemoryTaskRepository, id: string)
    returns (first: Option<DomainError>, second: Option<DomainError>, after: Result<TaskResponse>)
    requires repo.Valid() && id in repo.store
    modifies repo
    ensures first.None?
    ensures second == Some(NotFound("Task", id))
    ensures after == Err(NotFound("Task", id))
  {
    var delete := new DeleteTaskUseCase(repo);
    first := delete.Execute(id);
    second := delete.Execute(id);
    var get := new GetTaskUseCase(repo);
    after := get.Execute(id);
  }

  // --------------------------------------------------------- create user

  /** `CreateUserDto`; `None` is an omitted role. */
  datatype CreateUserDto = CreateUserDto(name: string, email: string, role: Option<UserRole>)

  /** The message of the duplicate-email conflict; it quotes the email as
      given, between fixed text. */
  function ConflictMessage(email: string): (m: string)
    ensures |m| == |email| + 35
    ensures m[..19] == "A user with email '" && m[19..19 + |email|] == email
    ensures m[19 + |email|..] == "' already exists"
  {
    "A user with email '" + email + "' already exists"
  }

  /** No two stored users share an email. */
  predicate UniqueEmails(store: map<string, UserEntity.UserProps>) {
    forall a, b :: a in store && b in store && store[a].email == store[b].email ==> a == b
  }

  /** Storing a user whose email no stored user has keeps emails unique,
      whether or not the id was taken. */
  lemma SavingNewEmailKeepsUnique(store: map<string, UserEntity.UserProps>, u: UserEntity.UserProps)
    requires UniqueEmails(store) && !HasEmail(store, u.email)
    ensures UniqueEmails(store[u.id := u])
  {
    var s := store[u.id := u];
    forall a, b | a in s && b in s && s[a].email == s[b].email ensures a == b {
      if a != u.id && b != u.id {
        assert s[a] == store[a] && s[b] == store[b];
      }
    }
  }

  /** `CreateUserUseCase`. */
  class CreateUserUseCase {
    const userRepository: InMemoryUserRepository

    constructor (userRepository: InMemoryUserRepository)
      ensures this.userRepository == userRepository
    {
      this.userRepository := userRepository;
    }

    /** `execute(dto)`, with the generated id and the clock as inputs: the
        duplicate-email conflict is checked before `User.create` validates
        anything, and nothing is saved unless both pass. */
    method Execute(dto: CreateUserDto, id: string, now: nat) returns (r: Result<UserResponse>)
      requires userRepository.Valid()
      modifies userRepository
      ensures userRepository.Valid()
      ensures HasEmail(old(userRepository.store), ToLower(dto.email)) ==>
        r == Err(Conflict(ConflictMessage(dto.email)))
        && userRepository.store == old(userRepository.store)
        && userRepository.order == old(userRepository.order)
      ensures !HasEmail(old(userRepository.store), ToLower(dto.email)) ==>
        var created := UserEntity.Create(UserEntity.CreateParams(dto.name, dto.email, dto.role), id, now);
        && (created.Err? ==> r == Err(created.error)
                             && userRepository.store == old(userRepository.store)
                             && userRepository.order == old(userRepository.order))
        && (created.Ok? ==> r == Ok(ToUserResponse(created.value))
                            && userRepository.store == old(userRepository.store)[id := created.value]
                            && userRepository.order == if id in old(userRepository.store) then old(userRepository.order)
                                                       else old(userRepository.order) + [id])
      ensures r.Ok? ==> && id in userRepository.store
                        && userRepository.store[id].name == Trim(dto.name)
                        && userRepository.store[id].email == ToLower(Trim(dto.email))
                        && userRepository.store[id].role == dto.role.GetOr(Member)
      ensures UniqueEmails(old(userRepository.store)) && IsTrimmed(dto.email) ==> UniqueEmails(userRepository.store)
    {
      var emailExists := userRepository.ExistsByEmail(dto.email);
      if emailExists {
        return Err(Conflict(ConflictMessage(dto.email)));
      }
      var user := UserEntity.Create(UserEntity.CreateParams(dto.name, dto.email, dto.role), id, now);
      if user.Err? {
        return Err(user.error);
      }
      if IsTrimmed(dto.email) {
        TrimOfTrimmed(dto.email);
        if UniqueEmails(userRepository.store) {
          SavingNewEmailKeepsUnique(userRepository.store, user.value);
        }
      }
      userRepository.Save(user.value);
      return Ok(ToUserResponse(user.value));
    }
  }
}
