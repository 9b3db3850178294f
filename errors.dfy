/** The domain error taxonomy: every fallible operation of the model returns
    one of these kinds instead of throwing. */
module Errors {

  /** `DomainError` and its three subclasses. */
  datatype DomainError =
    | EntityNotFoundError(entity: string, id: string)
    | ValidationError(message: string, details: map<string, seq<string>>)
    | ConflictError(conflict: string)
  {
    /** The `code` each subclass passes to the `DomainError` constructor. */
    function Code(): string {
      match this
      case EntityNotFoundError(_, _) => "ENTITY_NOT_FOUND"
      case ValidationError(_, _) => "VALIDATION_ERROR"
      case ConflictError(_) => "CONFLICT"
    }

    /** The `message` each subclass passes to the `DomainError` constructor. */
    function Message(): string {
      match this
      case EntityNotFoundError(entity, id) => entity + " with id '" + id + "' not found"
      case ValidationError(message, _) => message
      case ConflictError(message) => message
    }
  }

  /** `new ValidationError(message)`: the details default to an empty mapping. */
  function Invalid(message: string): (e: DomainError)
    ensures e.ValidationError? && e.Code() == "VALIDATION_ERROR"
    ensures e.Message() == message && e.details == map[]
  {
    ValidationError(message, map[])
  }

  /** `new EntityNotFoundError(entity, id)`. */
  function NotFound(entity: string, id: string): (e: DomainError)
    ensures e.Code() == "ENTITY_NOT_FOUND"
    ensures e.Message() == entity + " with id '" + id + "' not found"
  {
    EntityNotFoundError(entity, id)
  }

  /** `new ConflictError(message)`: the caller's message is kept unchanged. */
  function Conflict(message: string): (e: DomainError)
    ensures e.Code() == "CONFLICT" && e.Message() == message
  {
    ConflictError(message)
  }

  /** The code tells the three kinds apart. */
  lemma CodeIdentifiesKind(a: DomainError, b: DomainError)
    ensures a.Code() == b.Code() <==>
      (a.EntityNotFoundError? && b.EntityNotFoundError?)
      || (a.ValidationError? && b.ValidationError?)
      || (a.ConflictError? && b.ConflictError?)
  {
    assert "ENTITY_NOT_FOUND"[0] != "VALIDATION_ERROR"[0];
    assert "ENTITY_NOT_FOUND"[0] != "CONFLICT"[0];
    assert "VALIDATION_ERROR"[0] != "CONFLICT"[0];
  }

  /** A value or the error that stopped the operation. */
  datatype Result<T> = Ok(value: T) | Err(error: DomainError)
}
