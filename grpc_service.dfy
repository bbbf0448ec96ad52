/** The two RPCs of the gRPC variant: a greeting and a user lookup by name. */
module GrpcService {
  import opened Wrappers
  import opened SqlErrors
  import opened Tonic
  import GrpcData

  datatype HiRequest = HiRequest(hello: string)

  datatype HiResponse = HiResponse(message: string)

  datatype UserRequest = UserRequest(name: string)

  datatype Rpts01Service = Rpts01Service(repository: GrpcData.PostgresRepository)

  const GreetingPrefix := "Hello "
  const GreetingSuffix := "! How are you?"
  const NotFoundPrefix := "No user with name "

  /** `say_hi`: it always succeeds, and the greeting embeds the request's text verbatim. */
  function SayHi(service: Rpts01Service, request: HiRequest): (r: Result<HiResponse, Status>)
    ensures r.Ok?
    ensures r.value.message == GreetingPrefix + request.hello + GreetingSuffix
  {
    Ok(HiResponse(GreetingPrefix + request.hello + GreetingSuffix))
  }

  /** The greeting can be read back: stripping the fixed text gives the request. */
  lemma SayHiRecoversHello(service: Rpts01Service, request: HiRequest)
    ensures
      var m := SayHi(service, request).value.message;
      |m| == |request.hello| + 20 && m[6..|m| - 14] == request.hello
  {
  }

  lemma SayHiRob(service: Rpts01Service)
    ensures SayHi(service, HiRequest("Rob")) == Ok(HiResponse("Hello Rob! How are you?"))
  {
    var m := SayHi(service, HiRequest("Rob")).value.message;
    assert |m| == 23;
    assert forall i :: 0 <= i < 23 ==> m[i] == "Hello Rob! How are you?"[i];
    assert m == "Hello Rob! How are you?";
  }

  /** The text of the `NotFound` status: the requested name, then the error's own text. */
  function NotFoundMessage(name: string, e: SqlError): (m: string)
    ensures |NotFoundPrefix| + |name| + |Display(e)| <= |m|
    ensures m[..|NotFoundPrefix| + |name|] == NotFoundPrefix + name
    ensures m[|m| - |Display(e)|..] == Display(e)
  {
    NotFoundPrefix + name + " exists. Error: " + Display(e)
  }

  /**
   * The `map_err` of `get_user`: a user passes unchanged, and whatever the
   * repository's error (a missing row, a pool time-out, a database failure)
   * it becomes a `NotFound` status naming the user.
   */
  function MapLookupError(name: string, found: Result<GrpcData.User, SqlError>): (r: Result<GrpcData.User, Status>)
    ensures r.Ok? <==> found.Ok?
    ensures r.Ok? ==> r.value == found.value
    ensures r.Err? ==> r.error.code == NotFound && r.error.message == NotFoundMessage(name, found.error)
  {
    match found
    case Ok(user) => Ok(user)
    case Err(e) => Err(Status(NotFound, NotFoundMessage(name, e)))
  }

  /** `get_user`: the repository's user when found, otherwise a `NotFound` status naming the user. */
  function GetUser(service: Rpts01Service, request: UserRequest): (r: Result<GrpcData.User, Status>)
    ensures var found := GrpcData.GetUser(service.repository, request.name);
      && (r.Ok? <==> found.Ok?)
      && (r.Ok? ==> r.value == found.value)
      && (r.Err? ==> r.error == Status(NotFound, NotFoundMessage(request.name, found.error)))
  {
    MapLookupError(request.name, GrpcData.GetUser(service.repository, request.name))
  }

  /** The `NotFound` message begins with the requested name. */
  lemma NotFoundNamesUser(service: Rpts01Service, request: UserRequest)
    requires GrpcData.GetUser(service.repository, request.name).Err?
    ensures
      var m := GetUser(service, request).error.message;
      var prefix := NotFoundPrefix + request.name;
      GetUser(service, request).error.code == NotFound && |prefix| <= |m| && m[..|prefix|] == prefix
  {
  }
}
