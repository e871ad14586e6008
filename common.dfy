/** Values shared by every part of the model: optional and nullable values, results,
    and the HTTP exceptions the services raise. */
module Common {

  /** An optional value: `None` stands for JavaScript's `undefined` (a key that is absent). */
  datatype Option<+T> = None | Some(value: T) {
    /** The value, or `default` when absent (the `??` and default-parameter idiom). */
    function GetOr(default: T): T {
      match this
      case Some(v) => v
      case None => default
    }
  }

  /** A nullable database column: `Null` stands for SQL/JavaScript `null`. */
  datatype Nullable<+T> = Null | NonNull(value: T)

  /** `value ?? undefined`: a null column becomes an absent response field. */
  function NullToUndefined<T>(n: Nullable<T>): (r: Option<T>)
    ensures r.None? <==> n.Null?
    ensures r.Some? ==> r.value == n.value
  {
    match n
    case Null => None
    case NonNull(v) => Some(v)
  }

  /** The outcome of an operation that either returns a value or throws. */
  datatype Result<+T, +E> = Success(value: T) | Failure(error: E)

  /** The exceptions of the HTTP layer that the services throw, with their messages. */
  datatype HttpError =
    | BadRequest(message: string)
    | Unauthorized(message: string)
    | NotFound(message: string)
    | Conflict(message: string)
    | InternalServerError(message: string)

  /** The kind of an exception, as `instanceof` distinguishes them. */
  datatype ErrorKind = BadRequestKind | UnauthorizedKind | NotFoundKind | ConflictKind | InternalKind

  function KindOf(e: HttpError): ErrorKind {
    match e
    case BadRequest(_) => BadRequestKind
    case Unauthorized(_) => UnauthorizedKind
    case NotFound(_) => NotFoundKind
    case Conflict(_) => ConflictKind
    case InternalServerError(_) => InternalKind
  }

  /** What reaches a `catch` block: an HTTP exception, or a failure of the storage layer
      (a lost connection, a query error), which is not an HTTP exception. */
  datatype Thrown = Http(error: HttpError) | StorageFailure

  /** The message the framework answers with when an exception that is not an HTTP
      exception escapes a handler. */
  const UnhandledMessage: string := "Internal server error"

  /** A `catch (error)` block that rethrows the listed HTTP exception kinds and replaces
      everything else by an InternalServerError carrying `message`. */
  function Rethrow(t: Thrown, passThrough: set<ErrorKind>, message: string): (e: HttpError)
    ensures t.Http? && KindOf(t.error) in passThrough ==> e == t.error
    ensures !(t.Http? && KindOf(t.error) in passThrough) ==> e == InternalServerError(message)
    ensures KindOf(e) in passThrough || e == InternalServerError(message)
  {
    if t.Http? && KindOf(t.error) in passThrough then t.error else InternalServerError(message)
  }
}
