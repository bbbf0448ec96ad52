/**
 * The REST variant's service layer. Get, update and delete first apply the
 * ownership guard and, when it fails, return `Unauthorized` without touching
 * storage; create has no guard. Every storage result is passed on with its
 * error wrapped as `DbError`. The functions give each call's result (and the
 * table afterwards); the class runs them against its repository.
 */
module Service {
  import opened Wrappers
  import opened Uuids
  import opened Chrono
  import opened SqlErrors
  import opened Models
  import opened ServiceErrors
  import opened Macros
  import opened Repository

  /** A service call's outcome: its result and the table afterwards. */
  datatype ServiceStep = ServiceStep(result: Result<User, ServiceError>, table: Table)

  function Lift(s: Step): (t: ServiceStep)
    ensures t.result == FromSql(s.result) && t.table == s.table
  {
    ServiceStep(FromSql(s.result), s.table)
  }

  function GetUserOutcome(t: Table, userId: Uuid, callerId: Option<string>): (r: Result<User, ServiceError>)
    ensures r == Err(Unauthorized) <==> !Authorized(userId, callerId)
    ensures Authorized(userId, callerId) ==> r == FromSql(Select(t, userId))
  {
    if !Authorized(userId, callerId) then Err(Unauthorized)
    else FromSql(Select(t, userId))
  }

  function UpdateUserOutcome(t: Table, userId: Uuid, callerId: Option<string>, data: CustomData, now: DateTime): (s: ServiceStep)
    ensures s.result == Err(Unauthorized) <==> !Authorized(userId, callerId)
    ensures !Authorized(userId, callerId) ==> s.table == t
    ensures Authorized(userId, callerId) ==> s == Lift(Update(t, userId, data, now))
  {
    if !Authorized(userId, callerId) then ServiceStep(Err(Unauthorized), t)
    else Lift(Update(t, userId, data, now))
  }

  /** Creation is never guarded: it is the repository's insert with its error wrapped. */
  function CreateUserOutcome(t: Table, user: User, newId: Uuid, now: DateTime): (s: ServiceStep)
    ensures s.result != Err(Unauthorized)
    ensures s == Lift(Insert(t, user, newId, now))
  {
    Lift(Insert(t, user, newId, now))
  }

  function DeleteUserOutcome(t: Table, userId: Uuid, callerId: Option<string>): (s: ServiceStep)
    ensures s.result == Err(Unauthorized) <==> !Authorized(userId, callerId)
    ensures !Authorized(userId, callerId) ==> s.table == t
    ensures Authorized(userId, callerId) ==> s == Lift(Delete(t, userId))
  {
    if !Authorized(userId, callerId) then ServiceStep(Err(Unauthorized), t)
    else Lift(Delete(t, userId))
  }

  /** A caller whose identity is not the resource id's string is refused, and the table stays as it was. */
  lemma ForeignCallerRejected(t: Table, userId: Uuid, caller: string, data: CustomData, now: DateTime)
    requires caller != ToString(userId)
    ensures GetUserOutcome(t, userId, Some(caller)) == Err(Unauthorized)
    ensures UpdateUserOutcome(t, userId, Some(caller), data, now) == ServiceStep(Err(Unauthorized), t)
    ensures DeleteUserOutcome(t, userId, Some(caller)) == ServiceStep(Err(Unauthorized), t)
  {
  }

  /** With no caller identity, or the owner's, each guarded call is the repository's statement. */
  lemma OwnerOrAnonymousPassesThrough(t: Table, userId: Uuid, callerId: Option<string>, data: CustomData, now: DateTime)
    requires callerId == None || callerId == Some(ToString(userId))
    ensures GetUserOutcome(t, userId, callerId) == FromSql(Select(t, userId))
    ensures UpdateUserOutcome(t, userId, callerId, data, now) == Lift(Update(t, userId, data, now))
    ensures DeleteUserOutcome(t, userId, callerId) == Lift(Delete(t, userId))
  {
  }

  /** The caller holding UUID `owner`'s string is refused on `userId` exactly when the two differ. */
  lemma RefusedIffNotOwner(t: Table, userId: Uuid, owner: Uuid)
    ensures GetUserOutcome(t, userId, Some(ToString(owner))) == Err(Unauthorized) <==> userId != owner
  {
    AuthorizedIffOwner(userId, owner);
  }

  /** A missing row reaches the caller as `DbError(RowNotFound)`, for get, update and delete alike. */
  lemma MissingRowIsDbError(t: Table, userId: Uuid, callerId: Option<string>, data: CustomData, now: DateTime)
    requires Authorized(userId, callerId) && userId !in t
    ensures GetUserOutcome(t, userId, callerId) == Err(DbError(RowNotFound))
    ensures UpdateUserOutcome(t, userId, callerId, data, now) == ServiceStep(Err(DbError(RowNotFound)), t)
    ensures DeleteUserOutcome(t, userId, callerId) == ServiceStep(Err(DbError(RowNotFound)), t)
  {
  }

  /**
   * The owner's round of calls on a fresh user: create it, read it back, change
   * its custom data, delete it; after that a read finds nothing.
   */
  lemma OwnerLifecycle(t: Table, user: User, newId: Uuid, created: DateTime, data: CustomData, updated: DateTime)
    requires newId !in t
    ensures
      var c := CreateUserOutcome(t, user, newId, created);
      var owner := Some(ToString(newId));
      var g := GetUserOutcome(c.table, newId, owner);
      var u := UpdateUserOutcome(c.table, newId, owner, data, updated);
      var d := DeleteUserOutcome(u.table, newId, owner);
      && c.result.Ok? && c.result.value.id == Some(newId)
      && g == c.result
      && u.result.Ok? && u.result.value.name == user.name && u.result.value.customData == Some(data)
      && u.result.value.createdAt == Some(created) && u.result.value.updatedAt == Some(updated)
      && d.result == u.result
      && GetUserOutcome(d.table, newId, owner) == Err(DbError(RowNotFound))
      && d.table == t
  {
  }

  class Rpts02Service {
    const repository: PostgresRepository

    constructor (repository: PostgresRepository)
      ensures this.repository == repository
    {
      this.repository := repository;
    }

    method GetUser(userId: Uuid, callerId: Option<string>) returns (r: Result<User, ServiceError>)
      requires repository.Valid()
      ensures r == GetUserOutcome(repository.users, userId, callerId)
    {
      if !Authorized(userId, callerId) {
        return Err(Unauthorized);
      }
      var found := repository.GetUser(userId);
      r := FromSql(found);
    }

    method UpdateUser(userId: Uuid, callerId: Option<string>, customData: CustomData, now: DateTime)
      returns (r: Result<User, ServiceError>)
      requires repository.Valid()
      modifies repository
      ensures repository.Valid()
      ensures ServiceStep(r, repository.users) == UpdateUserOutcome(old(repository.users), userId, callerId, customData, now)
    {
      if !Authorized(userId, callerId) {
        return Err(Unauthorized);
      }
      var updated := repository.UpdateUser(userId, customData, now);
      r := FromSql(updated);
    }

    method CreateUser(user: User, newId: Uuid, now: DateTime) returns (r: Result<User, ServiceError>)
      requires repository.Valid()
      modifies repository
      ensures repository.Valid()
      ensures ServiceStep(r, repository.users) == CreateUserOutcome(old(repository.users), user, newId, now)
    {
      var created := repository.CreateUser(user, newId, now);
      r := FromSql(created);
    }

    method DeleteUser(userId: Uuid, callerId: Option<string>) returns (r: Result<User, ServiceError>)
      requires repository.Valid()
      modifies repository
      ensures repository.Valid()
      ensures ServiceStep(r, repository.users) == DeleteUserOutcome(old(repository.users), userId, callerId)
    {
      if !Authorized(userId, callerId) {
        return Err(Unauthorized);
      }
      var deleted := repository.DeleteUser(userId);
      r := FromSql(deleted);
    }
  }

  /** The handle the HTTP handlers hold: it dereferences to the service it wraps. */
  class ServiceInjector {
    const service: Rpts02Service

    constructor (service: Rpts02Service)
      ensures Deref() == service
    {
      this.service := service;
    }

    function Deref(): Rpts02Service {
      service
    }
  }
}
