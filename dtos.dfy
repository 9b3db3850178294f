/** The application's data-transfer objects and the two mappers that turn
    entities into responses. */
module Dtos {
  import opened Common
  import opened ValueObjects
  import opened TaskEntity
  import opened UserEntity

  /** The text `toISOString` gives for an instant. The formatting is not
      modelled: the text is determined by the instant and determines it. */
  datatype IsoString = IsoString(instant: nat)

  /** `TaskResponseDto`. */
  datatype TaskResponse = TaskResponse(
    id: string,
    title: string,
    description: string,
    status: TaskStatus,
    priority: TaskPriority,
    assigneeId: Option<string>,
    dueDate: Option<IsoString>,
    tags: seq<string>,
    createdAt: IsoString,
    updatedAt: IsoString)

  /** `UserResponseDto`. */
  datatype UserResponse = UserResponse(
    id: string,
    name: string,
    email: string,
    role: UserRole,
    createdAt: IsoString,
    updatedAt: IsoString)

  /** `toTaskResponse`: the fields of the task, dates as ISO text and an
      absent due date as `null`. */
  function ToTaskResponse(t: TaskProps): (r: TaskResponse)
    ensures r.id == t.id && r.title == t.title && r.description == t.description
    ensures r.status == t.status && r.priority == t.priority
    ensures r.assigneeId == t.assigneeId && r.tags == t.tags
    ensures r.createdAt.instant == t.createdAt && r.updatedAt.instant == t.updatedAt
    ensures r.dueDate.None? <==> t.dueDate.None?
    ensures t.dueDate.Some? ==> r.dueDate.value.instant == t.dueDate.value
  {
    TaskResponse(
      id := t.id,
      title := t.title,
      description := t.description,
      status := t.status,
      priority := t.priority,
      assigneeId := t.assigneeId,
      dueDate := if t.dueDate.Some? then Some(IsoString(t.dueDate.value)) else None,
      tags := t.tags,
      createdAt := IsoString(t.createdAt),
      updatedAt := IsoString(t.updatedAt))
  }

  /** The response is the task back: a field of the task that is not in the
      response could be read back from it. */
  function TaskOfResponse(r: TaskResponse): (t: TaskProps)
    ensures ToTaskResponse(t) == r
  {
    TaskProps(
      id := r.id,
      title := r.title,
      description := r.description,
      status := r.status,
      priority := r.priority,
      assigneeId := r.assigneeId,
      dueDate := if r.dueDate.Some? then Some(r.dueDate.value.instant) else None,
      tags := r.tags,
      createdAt := r.createdAt.instant,
      updatedAt := r.updatedAt.instant)
  }

  /** `toTaskResponse` loses nothing: two tasks have the same response
      exactly when they are the same task. */
  lemma TaskResponseIsFaithful(a: TaskProps, b: TaskProps)
    ensures ToTaskResponse(a) == ToTaskResponse(b) <==> a == b
  {
    if ToTaskResponse(a) == ToTaskResponse(b) {
      assert a.dueDate == b.dueDate by {
        assert ToTaskResponse(a).dueDate == ToTaskResponse(b).dueDate;
      }
    }
  }

  /** `toUserResponse`: the fields of the user, dates as ISO text. */
  function ToUserResponse(u: UserProps): (r: UserResponse)
    ensures r.id == u.id && r.name == u.name && r.email == u.email && r.role == u.role
    ensures r.createdAt.instant == u.createdAt && r.updatedAt.instant == u.updatedAt
  {
    UserResponse(
      id := u.id,
      name := u.name,
      email := u.email,
      role := u.role,
      createdAt := IsoString(u.createdAt),
      updatedAt := IsoString(u.updatedAt))
  }

  /** `toUserResponse` loses nothing either. */
  lemma UserResponseIsFaithful(a: UserProps, b: UserProps)
    ensures ToUserResponse(a) == ToUserResponse(b) <==> a == b
  {
  }

  /** `result.data.map(toTaskResponse)`: one response per task, in order. */
  function ToTaskResponses(ts: seq<TaskProps>): (r: seq<TaskResponse>)
    ensures |r| == |ts|
    ensures forall i :: 0 <= i < |ts| ==> r[i] == ToTaskResponse(ts[i])
  {
    if ts == [] then [] else [ToTaskResponse(ts[0])] + ToTaskResponses(ts[1..])
  }
}
