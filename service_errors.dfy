/** The error type of the REST service layer and its conversion from storage errors. */
module ServiceErrors {
  import opened Wrappers
  import opened SqlErrors

  /** Either the caller failed the ownership check or storage failed. */
  datatype ServiceError = Unauthorized | DbError(cause: SqlError)

  /** The `Display` text: a fixed sentence, or the storage error's own text (`#[error(transparent)]`). */
  function Message(e: ServiceError): (r: string)
    ensures e.DbError? ==> r == Display(e.cause)
    ensures e.Unauthorized? ==> forall c :: r != Display(c)
  {
    match e
    case Unauthorized => "User is not authorized " + "to access this resource"
    case DbError(cause) => Display(cause)
  }

  /** `map_err(|e| e.into())` with `#[from] sqlx::Error`: successes pass, every storage error becomes `DbError` of itself. */
  function FromSql<T>(r: Result<T, SqlError>): (s: Result<T, ServiceError>)
    ensures s.Ok? <==> r.Ok?
    ensures s.Ok? ==> s.value == r.value
    ensures s.Err? ==> s.error == DbError(r.error)
  {
    match r
    case Ok(v) => Ok(v)
    case Err(e) => Err(DbError(e))
  }

  /** The `Display` text identifies the service error. */
  lemma MessageIdentifiesError(a: ServiceError, b: ServiceError)
    ensures Message(a) == Message(b) <==> a == b
  {
    if a.DbError? && b.DbError? {
      DisplayInjective(a.cause, b.cause);
    }
  }
}
