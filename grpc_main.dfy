/** The interceptor the gRPC server installs in front of both RPCs. */
module GrpcMain {
  import opened Wrappers
  import opened Tonic

  const AuthorizationKey := "authorization"
  const ExpectedToken := "Bearer myjwttoken"
  const InvalidTokenMessage := "The token is invalid"

  /**
   * `interceptor`: passes the request on, unchanged, exactly when its
   * `authorization` metadata is the expected bearer token; otherwise, whether
   * the entry is missing or different, fails with `Unauthenticated`.
   */
  function Interceptor(req: Request): (r: Result<Request, Status>)
    ensures r.Ok? <==> AuthorizationKey in req.metadata && req.metadata[AuthorizationKey] == ExpectedToken
    ensures r.Ok? ==> r.value == req
    ensures r.Err? ==> r.error == Status(Unauthenticated, InvalidTokenMessage)
  {
    if AuthorizationKey in req.metadata && req.metadata[AuthorizationKey] == ExpectedToken then Ok(req)
    else Err(Status(Unauthenticated, InvalidTokenMessage))
  }

  /** A request without the entry is refused; and the other metadata plays no part in the decision. */
  lemma InterceptorReadsOnlyAuthorization(req: Request, other: Request)
    requires AuthorizationKey in req.metadata <==> AuthorizationKey in other.metadata
    requires AuthorizationKey in req.metadata ==> req.metadata[AuthorizationKey] == other.metadata[AuthorizationKey]
    ensures AuthorizationKey !in req.metadata ==> Interceptor(req).Err?
    ensures Interceptor(req).Ok? <==> Interceptor(other).Ok?
  {
  }
}
