/**
 * The three macros of the REST variant: the ownership guard, the mapping of
 * service errors onto HTTP errors, and the wrapping of a service result into a
 * response; plus `measure_query!`, which only times its block.
 */
module Macros {
  import opened Wrappers
  import opened Uuids
  import opened SqlErrors
  import opened ServiceErrors
  import opened Http

  /**
   * `authorized!(user_id, caller_id)`: whether the guarded operation goes on.
   * With no caller identity it always does; with one, only when the identity is
   * the resource id's string form. When this is false the caller returns
   * `Err(Unauthorized)` at once.
   */
  predicate Authorized(userId: Uuid, callerId: Option<string>): (b: bool)
    ensures callerId.None? ==> b
    ensures forall owner :: callerId == Some(ToString(owner)) ==> (b <==> owner == userId)
  {
    OnlyOwnerHasString(userId);
    match callerId
    case None => true
    case Some(caller) => ToString(userId) == caller
  }

  lemma AuthorizedCases(userId: Uuid, caller: string)
    ensures Authorized(userId, None)
    ensures Authorized(userId, Some(caller)) <==> caller == ToString(userId)
  {
  }

  /** A caller who presents the string of UUID `owner` may act on `userId` exactly when it is `owner`. */
  lemma AuthorizedIffOwner(userId: Uuid, owner: Uuid)
    ensures Authorized(userId, Some(ToString(owner))) <==> userId == owner
  {
    ToStringInjective(userId, owner);
  }

  const DatabaseErrorMessage := "Database Error"

  /**
   * `svc_err!`: `Unauthorized` is 401, a missing row 404, and every other
   * storage error 500 with a fixed message that hides the storage's detail.
   * The 401 and 404 errors carry the service error's own text.
   */
  function SvcErr(e: ServiceError): (r: HttpError)
    ensures r.status == StatusUnauthorized <==> e == Unauthorized
    ensures r.status == StatusNotFound <==> e == DbError(RowNotFound)
    ensures r.status == StatusInternalServerError <==> (e.DbError? && e.cause != RowNotFound)
    ensures r.status == StatusInternalServerError ==> r.message == DatabaseErrorMessage
    ensures r.status != StatusInternalServerError ==> r.message == Message(e)
  {
    match e
    case Unauthorized => HttpError(StatusUnauthorized, Message(e))
    case DbError(RowNotFound) => HttpError(StatusNotFound, Message(e))
    case DbError(_) => HttpError(StatusInternalServerError, DatabaseErrorMessage)
  }

  /** Two storage failures other than a missing row give the same HTTP error, whatever their detail. */
  lemma SvcErrHidesStorageDetail(a: SqlError, b: SqlError)
    requires a != RowNotFound && b != RowNotFound
    ensures SvcErr(DbError(a)) == SvcErr(DbError(b))
  {
  }

  /**
   * `svc_response!(call, response_type, location, _)`: a success becomes a
   * response of the given status with that `Location` and the value as body; a
   * failure becomes exactly `svc_err!` of it.
   */
  function SvcResponse<T>(svcCall: Result<T, ServiceError>, status: int, location: string): (r: Result<HttpResponse<T>, HttpError>)
    ensures svcCall.Ok? ==> r == Ok(HttpResponse(status, location, svcCall.value))
    ensures svcCall.Err? ==> r == Err(SvcErr(svcCall.error))
  {
    match svcCall
    case Ok(v) => Ok(HttpResponse(status, location, v))
    case Err(e) => Err(SvcErr(e))
  }

  /** `measure_query!(name, block)`: the block's value, unchanged (the timing is only logged). */
  function MeasureQuery<T>(queryName: string, block: T): (r: T)
    ensures r == block
  {
    block
  }
}
