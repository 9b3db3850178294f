/** The task entity: validated construction, reconstruction from storage,
    and the two in-place mutators (status transition and detail update). */
module TaskEntity {
  import opened Common
  import opened Errors
  import opened Text
  import opened ValueObjects

  const MaxTitleLength: nat := 255

  const TitleRequired := "Title is required"
  const TitleTooLong := "Title must be 255 characters or fewer"
  const DueDateInPast := "Due date must be in the future"

  /** `TaskProps`. Dates are instants in milliseconds. */
  datatype TaskProps = TaskProps(
    id: string,
    title: string,
    description: string,
    status: TaskStatus,
    priority: TaskPriority,
    assigneeId: Option<string>,
    dueDate: Option<nat>,
    tags: seq<string>,
    createdAt: nat,
    updatedAt: nat)

  /** The arguments of `Task.create`; `None` is an omitted property. */
  datatype CreateParams = CreateParams(
    title: string,
    description: Option<string>,
    priority: Option<TaskPriority>,
    assigneeId: Option<string>,
    dueDate: Option<nat>,
    tags: Option<seq<string>>)

  /** The arguments of `updateDetails`: each field absent, or given; the
      assignee and due date may also be given as `null`. */
  datatype DetailsParams = DetailsParams(
    title: Option<string>,
    description: Option<string>,
    priority: Option<TaskPriority>,
    assigneeId: Patch<string>,
    dueDate: Patch<nat>,
    tags: Option<seq<string>>)

  /** What holds of every task `Create` builds and that the mutators keep
      while the clock does not run backwards. */
  predicate WellFormed(t: TaskProps) {
    && t.title != [] && IsTrimmed(t.title) && |t.title| <= MaxTitleLength
    && IsTrimmed(t.description)
    && t.createdAt <= t.updatedAt
  }

  /** The title rule that `create` and `updateDetails` both apply. */
  function CheckTitle(title: string): (e: Option<DomainError>)
    ensures e.None? <==> !IsBlank(title) && |Trim(title)| <= MaxTitleLength
    ensures e.Some? ==> e.value == Invalid(if IsBlank(title) then TitleRequired else TitleTooLong)
  {
    TrimEmptyIffBlank(title);
    var t := Trim(title);
    if |t| == 0 then Some(Invalid(TitleRequired))
    else if |t| > MaxTitleLength then Some(Invalid(TitleTooLong))
    else None
  }

  /** `Task.create`, with the generated id and the current time as inputs. */
  function Create(p: CreateParams, id: string, now: nat): (r: Result<TaskProps>)
    ensures r.Err? <==> IsBlank(p.title) || |Trim(p.title)| > MaxTitleLength
                        || (p.dueDate.Some? && p.dueDate.value < now)
    ensures r.Err? ==> r.error == Invalid(
                         if IsBlank(p.title) then TitleRequired
                         else if |Trim(p.title)| > MaxTitleLength then TitleTooLong
                         else DueDateInPast)
    ensures r.Ok? ==> WellFormed(r.value)
    ensures r.Ok? ==> && r.value.id == id
                      && r.value.status == Pending
                      && r.value.createdAt == now && r.value.updatedAt == now
                      && r.value.title == Trim(p.title)
                      && r.value.description == (if p.description.Some? then Trim(p.description.value) else "")
                      && r.value.priority == p.priority.GetOr(Medium)
                      && r.value.assigneeId == p.assigneeId
                      && r.value.dueDate == p.dueDate
                      && r.value.tags == p.tags.GetOr([])
  {
    var titleError := CheckTitle(p.title);
    if titleError.Some? then Err(titleError.value)
    else if p.dueDate.Some? && p.dueDate.value < now then Err(Invalid(DueDateInPast))
    else
      TrimEmptyIffBlank(p.title);
      Ok(TaskProps(
        id := id,
        title := Trim(p.title),
        description := if p.description.Some? then Trim(p.description.value) else "",
        status := Pending,
        priority := p.priority.GetOr(Medium),
        assigneeId := p.assigneeId,
        dueDate := p.dueDate,
        tags := p.tags.GetOr([]),
        createdAt := now,
        updatedAt := now))
  }

  /** The message of a refused transition. */
  function TransitionMessage(from: TaskStatus, to: TaskStatus): string {
    "Cannot transition from '" + StatusName(from) + "' to '" + StatusName(to) + "'"
  }

  /** What `transitionTo(to)` at time `now` does to a task's fields. */
  function Transitioned(t: TaskProps, to: TaskStatus, now: nat): (r: Result<TaskProps>)
    ensures r.Ok? <==> CanTransition(t.status, to)
    ensures r.Ok? ==> r.value == t.(status := to, updatedAt := now)
    ensures r.Err? ==> r.error == Invalid(TransitionMessage(t.status, to))
  {
    if !CanTransition(t.status, to) then Err(Invalid(TransitionMessage(t.status, to)))
    else Ok(t.(status := to, updatedAt := now))
  }

  /** A field of `updateDetails` that may be `null`: `undefined` keeps it. */
  function ApplyPatch<T>(p: Patch<T>, current: Option<T>): Option<T> {
    match p
    case Unset => current
    case Clear => None
    case Set(v) => Some(v)
  }

  /** What `updateDetails(params)` at time `now` does to a task's fields. */
  function UpdatedDetails(t: TaskProps, params: DetailsParams, now: nat): (r: Result<TaskProps>)
    ensures r.Err? <==> params.title.Some? && (IsBlank(params.title.value) || |Trim(params.title.value)| > MaxTitleLength)
    ensures r.Err? ==> r.error == CheckTitle(params.title.value).value
    ensures r.Ok? ==> && r.value.id == t.id && r.value.status == t.status
                      && r.value.createdAt == t.createdAt && r.value.updatedAt == now
    ensures r.Ok? ==> && r.value.title == (if params.title.Some? then Trim(params.title.value) else t.title)
                      && r.value.description == (if params.description.Some? then Trim(params.description.value) else t.description)
                      && r.value.priority == params.priority.GetOr(t.priority)
                      && r.value.assigneeId == ApplyPatch(params.assigneeId, t.assigneeId)
                      && r.value.dueDate == ApplyPatch(params.dueDate, t.dueDate)
                      && r.value.tags == params.tags.GetOr(t.tags)
  {
    if params.title.Some? && CheckTitle(params.title.value).Some? then
      Err(CheckTitle(params.title.value).value)
    else
      Ok(t.(
        title := if params.title.Some? then Trim(params.title.value) else t.title,
        description := if params.description.Some? then Trim(params.description.value) else t.description,
        priority := params.priority.GetOr(t.priority),
        assigneeId := ApplyPatch(params.assigneeId, t.assigneeId),
        dueDate := ApplyPatch(params.dueDate, t.dueDate),
        tags := params.tags.GetOr(t.tags),
        updatedAt := now))
  }

  /** A legal transition at a time no earlier than the last update keeps a
      task well formed. */
  lemma TransitionKeepsWellFormed(t: TaskProps, to: TaskStatus, now: nat)
    requires WellFormed(t) && t.updatedAt <= now
    ensures Transitioned(t, to, now).Ok? ==> WellFormed(Transitioned(t, to, now).value)
  {
  }

  /** An accepted detail update at a time no earlier than the last update
      keeps a task well formed: the stored title stays non-empty, trimmed
      and short enough, and updatedAt never falls below createdAt. */
  lemma UpdateKeepsWellFormed(t: TaskProps, params: DetailsParams, now: nat)
    requires WellFormed(t) && t.updatedAt <= now
    ensures UpdatedDetails(t, params, now).Ok? ==> WellFormed(UpdatedDetails(t, params, now).value)
  {
    if params.title.Some? {
      TrimEmptyIffBlank(params.title.value);
    }
  }

  /** An update without a title never fails: in particular a due date in
      the past is accepted, because only `create` checks it. */
  lemma UpdateWithoutTitleAlwaysSucceeds(t: TaskProps, params: DetailsParams, now: nat)
    requires params.title.None?
    ensures UpdatedDetails(t, params, now).Ok?
  {
  }

  /** An update with no fields still moves updatedAt to the clock and
      changes nothing else. */
  lemma EmptyUpdateOnlyTouches(t: TaskProps, now: nat)
    ensures UpdatedDetails(t, DetailsParams(None, None, None, Unset, Unset, None), now)
            == Ok(t.(updatedAt := now))
  {
  }

  /** Applying the same update twice, at the same time, is the same as
      applying it once. */
  lemma UpdateIsIdempotent(t: TaskProps, params: DetailsParams, now: nat)
    requires UpdatedDetails(t, params, now).Ok?
    ensures UpdatedDetails(UpdatedDetails(t, params, now).value, params, now) == UpdatedDetails(t, params, now)
  {
    var u := UpdatedDetails(t, params, now).value;
    var v := UpdatedDetails(u, params, now);
    assert v.Ok?;
    assert v.value.title == u.title && v.value.description == u.description;
    assert v.value.assigneeId == u.assigneeId && v.value.dueDate == u.dueDate;
  }

  /** A `Task` object: its one field is the private `props` record of the
      source, which the mutators rewrite field by field. */
  class Task {
    var props: TaskProps

    /** `Task.fromPersistence`: no validation. */
    constructor FromPersistence(p: TaskProps)
      ensures props == p
    {
      props := p;
    }

    /** `toJSON`: a snapshot of every field (tags are copied, which value
        semantics makes implicit). */
    function ToJSON(): (p: TaskProps)
      reads this
      ensures p == props
    {
      props
    }

    /** `touch`: updatedAt becomes the clock. */
    method Touch(now: nat)
      modifies this
      ensures props == old(props).(updatedAt := now)
    {
      props := props.(updatedAt := now);
    }

    /** `transitionTo(newStatus)`; `err` is the thrown error, if any. */
    method TransitionTo(newStatus: TaskStatus, now: nat) returns (err: Option<DomainError>)
      modifies this
      ensures err.None? <==> CanTransition(old(props).status, newStatus)
      ensures err.None? ==> props == old(props).(status := newStatus, updatedAt := now)
      ensures err.Some? ==> props == old(props) && err.value == Invalid(TransitionMessage(old(props).status, newStatus))
      ensures Transitioned(old(props), newStatus, now) == if err.None? then Ok(props) else Err(err.value)
    {
      if !CanTransition(props.status, newStatus) {
        return Some(Invalid(TransitionMessage(props.status, newStatus)));
      }
      props := props.(status := newStatus);
      Touch(now);
      return None;
    }

    /** `updateDetails(params)`: validates the title before writing any
        field, then writes the given fields one by one, then touches. */
    method UpdateDetails(params: DetailsParams, now: nat) returns (err: Option<DomainError>)
      modifies this
      ensures err.Some? ==> props == old(props)
      ensures UpdatedDetails(old(props), params, now) == if err.None? then Ok(props) else Err(err.value)
    {
      if params.title.Some? {
        var titleError := CheckTitle(params.title.value);
        if titleError.Some? {
          return titleError;
        }
        props := props.(title := Trim(params.title.value));
      }
      if params.description.Some? {
        props := props.(description := Trim(params.description.value));
      }
      if params.priority.Some? {
        props := props.(priority := params.priority.value);
      }
      match params.assigneeId {
        case Unset =>
        case Clear => props := props.(assigneeId := None);
        case Set(a) => props := props.(assigneeId := Some(a));
      }
      match params.dueDate {
        case Unset =>
        case Clear => props := props.(dueDate := None);
        case Set(d) => props := props.(dueDate := Some(d));
      }
      if params.tags.Some? {
        props := props.(tags := params.tags.value);
      }
      Touch(now);
      return None;
    }
  }
}
