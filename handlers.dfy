/**
 * The `/users` handlers of the REST variant. Each one makes one service call and
 * turns its result into a response: get, patch and delete answer 200 with the
 * request path as `Location`; post answers 201 with the new user's URL. Errors
 * go through `svc_err!`. The caller identity the identity-provider middleware
 * found (`auth.user`) is handed to the service unchanged.
 */
module Handlers {
  import opened Wrappers
  import opened Uuids
  import opened Chrono
  import opened SqlErrors
  import opened Models
  import opened ServiceErrors
  import opened Http
  import opened Macros
  import opened Service

  /** What the token validator yields: the caller identity, if any. */
  datatype CognitoInfo = CognitoInfo(user: Option<string>)

  /**
   * The response of `post`. The source unwraps the created user's id, so a
   * successful result must carry one.
   */
  function PostResponse(path: string, svcResult: Result<User, ServiceError>): (r: Result<HttpResponse<User>, HttpError>)
    requires svcResult.Ok? ==> svcResult.value.id.Some?
    ensures svcResult.Ok? ==>
      r == Ok(HttpResponse(StatusCreated, path + "/" + ToString(svcResult.value.id.value), svcResult.value))
    ensures svcResult.Err? ==> r == Err(SvcErr(svcResult.error))
  {
    match svcResult
    case Ok(usr) => Ok(HttpResponse(StatusCreated, path + "/" + ToString(usr.id.value), usr))
    case Err(err) => Err(SvcErr(err))
  }

  /** Every handler answers a service error the same way: 401, 404, or 500 "Database Error". */
  lemma HandlersMapErrors(path: string, e: ServiceError)
    ensures
      var viaOk := SvcResponse<User>(Err(e), StatusOk, path);
      var viaPost := PostResponse(path, Err(e));
      && viaOk == viaPost
      && viaOk.Err?
      && (e == Unauthorized ==> viaOk.error == HttpError(StatusUnauthorized, Message(e)))
      && (e == DbError(RowNotFound) ==> viaOk.error == HttpError(StatusNotFound, Message(e)))
      && (e.DbError? && e.cause != RowNotFound ==> viaOk.error == HttpError(StatusInternalServerError, "Database Error"))
  {
  }

  /** The URL `post` returns ends in the new id's string, so it names exactly that user. */
  lemma PostLocationNamesCreatedUser(path: string, u: User, v: User)
    requires u.id.Some? && v.id.Some?
    ensures PostResponse(path, Ok(u)).value.location == PostResponse(path, Ok(v)).value.location
            <==> u.id == v.id
  {
    var lu := PostResponse(path, Ok(u)).value.location;
    var lv := PostResponse(path, Ok(v)).value.location;
    if lu == lv {
      assert lu[|path| + 1..] == ToString(u.id.value);
      assert lv[|path| + 1..] == ToString(v.id.value);
      ToStringInjective(u.id.value, v.id.value);
    }
  }

  /** `GET /users/{id}`. */
  method Get(id: Uuid, req: HttpRequest, auth: CognitoInfo, svc: ServiceInjector)
    returns (r: Result<HttpResponse<User>, HttpError>)
    requires svc.Deref().repository.Valid()
    ensures r == SvcResponse(GetUserOutcome(svc.Deref().repository.users, id, auth.user), StatusOk, req.path)
  {
    var result := svc.Deref().GetUser(id, auth.user);
    r := SvcResponse(result, StatusOk, req.path);
  }

  /** `POST /users`; storage picks `newId` and stamps `now`. */
  method Post(user: User, req: HttpRequest, svc: ServiceInjector, newId: Uuid, now: DateTime)
    returns (r: Result<HttpResponse<User>, HttpError>)
    requires svc.Deref().repository.Valid()
    modifies svc.Deref().repository
    ensures svc.Deref().repository.Valid()
    ensures
      var s := CreateUserOutcome(old(svc.Deref().repository.users), user, newId, now);
      r == PostResponse(req.path, s.result) && svc.Deref().repository.users == s.table
  {
    var result := svc.Deref().CreateUser(user, newId, now);
    r := PostResponse(req.path, result);
  }

  /** `PATCH /users/{id}` with a JSON `CustomData` body; the update is stamped with `now`. */
  method Patch(id: Uuid, customData: CustomData, req: HttpRequest, auth: CognitoInfo, svc: ServiceInjector, now: DateTime)
    returns (r: Result<HttpResponse<User>, HttpError>)
    requires svc.Deref().repository.Valid()
    modifies svc.Deref().repository
    ensures svc.Deref().repository.Valid()
    ensures
      var s := UpdateUserOutcome(old(svc.Deref().repository.users), id, auth.user, customData, now);
      r == SvcResponse(s.result, StatusOk, req.path) && svc.Deref().repository.users == s.table
  {
    var result := svc.Deref().UpdateUser(id, auth.user, customData, now);
    r := SvcResponse(result, StatusOk, req.path);
  }

  /** `DELETE /users/{id}`. */
  method Delete(id: Uuid, req: HttpRequest, auth: CognitoInfo, svc: ServiceInjector)
    returns (r: Result<HttpResponse<User>, HttpError>)
    requires svc.Deref().repository.Valid()
    modifies svc.Deref().repository
    ensures svc.Deref().repository.Valid()
    ensures
      var s := DeleteUserOutcome(old(svc.Deref().repository.users), id, auth.user);
      r == SvcResponse(s.result, StatusOk, req.path) && svc.Deref().repository.users == s.table
  {
    var result := svc.Deref().DeleteUser(id, auth.user);
    r := SvcResponse(result, StatusOk, req.path);
  }
}
