/**
 * The REST variant's storage: the `users` table, keyed by id. Each of the four
 * operations is one SQL statement read with `fetch_one`, so a statement that
 * matches no row fails with `RowNotFound`. The pure functions below give each
 * statement's result and the table afterwards; the class applies them in place.
 * The clock (`Utc::now()` in the statement, the column defaults on insert) and
 * the id the database generates are parameters.
 */
module Repository {
  import opened Wrappers
  import opened Uuids
  import opened Chrono
  import opened SqlErrors
  import opened Models
  import opened Macros

  type Table = map<Uuid, User>

  /** Every row's `id` column is the key it is stored under. */
  predicate WellKeyed(t: Table) {
    forall k :: k in t ==> t[k].id == Some(k)
  }

  /** A statement's outcome: what `fetch_one` returns and the table afterwards. */
  datatype Step = Step(result: Result<User, SqlError>, table: Table)

  /** What inserting a second row with an existing primary key reports. */
  const UniqueViolation := Database("duplicate key value violates unique constraint \"users_pkey\"")

  /** `SELECT ... FROM users WHERE id = $1`. */
  function Select(t: Table, id: Uuid): (r: Result<User, SqlError>)
    ensures r.Ok? <==> id in t
    ensures r.Ok? ==> r.value == t[id]
    ensures r.Err? ==> r.error == RowNotFound
    ensures WellKeyed(t) && r.Ok? ==> r.value.id == Some(id)
  {
    if id in t then Ok(t[id]) else Err(RowNotFound)
  }

  /**
   * `INSERT INTO users (name, birth_date, custom_data) VALUES (...) RETURNING ...`
   * with the database choosing `newId` and stamping both timestamps with `now`.
   */
  function Insert(t: Table, user: User, newId: Uuid, now: DateTime): (s: Step)
    ensures s.result.Err? <==> newId in t
    ensures s.result.Err? ==> s == Step(Err(UniqueViolation), t)
    ensures s.result.Ok? ==>
      var row := s.result.value;
      && row.id == Some(newId)
      && row.name == user.name
      && row.birthDate == user.birthDate
      && row.customData == user.customData
      && row.createdAt == Some(now)
      && row.updatedAt == Some(now)
      && s.table == t[newId := row]
    ensures WellKeyed(t) ==> WellKeyed(s.table)
  {
    if newId in t then Step(Err(UniqueViolation), t)
    else
      var row := User(Some(newId), user.name, user.birthDate, Some(now), Some(now), user.customData);
      Step(Ok(row), t[newId := row])
  }

  /** `UPDATE users SET custom_data = $1, updated_at = $2 WHERE id = $3 RETURNING ...`. */
  function Update(t: Table, id: Uuid, data: CustomData, now: DateTime): (s: Step)
    ensures s.result.Err? <==> id !in t
    ensures s.result.Err? ==> s == Step(Err(RowNotFound), t)
    ensures s.result.Ok? ==>
      var row := s.result.value;
      && row.id == t[id].id
      && row.name == t[id].name
      && row.birthDate == t[id].birthDate
      && row.createdAt == t[id].createdAt
      && row.customData == Some(data)
      && row.updatedAt == Some(now)
      && s.table == t[id := row]
    ensures WellKeyed(t) && s.result.Ok? ==> s.result.value.id == Some(id)
    ensures WellKeyed(t) ==> WellKeyed(s.table)
  {
    if id !in t then Step(Err(RowNotFound), t)
    else
      var row := t[id].(customData := Some(data), updatedAt := Some(now));
      Step(Ok(row), t[id := row])
  }

  /** `DELETE FROM users WHERE id = $1 RETURNING ...`: the removed row as it was. */
  function Delete(t: Table, id: Uuid): (s: Step)
    ensures s.result.Err? <==> id !in t
    ensures s.result.Err? ==> s == Step(Err(RowNotFound), t)
    ensures s.result.Ok? ==> s.result.value == t[id] && s.table == t - {id}
    ensures WellKeyed(t) && s.result.Ok? ==> s.result.value.id == Some(id)
    ensures WellKeyed(t) ==> WellKeyed(s.table)
  {
    if id !in t then Step(Err(RowNotFound), t)
    else Step(Ok(t[id]), t - {id})
  }

  /** A created row can be read back under the id storage assigned it. */
  lemma GetAfterCreate(t: Table, user: User, newId: Uuid, now: DateTime)
    requires newId !in t
    ensures Insert(t, user, newId, now).result.Ok?
    ensures Insert(t, user, newId, now).result.value.id == Some(newId)
    ensures Select(Insert(t, user, newId, now).table, newId) == Insert(t, user, newId, now).result
  {
  }

  /** Insertion ignores the supplied `id` and timestamps: only name, birth date and custom data are used. */
  lemma InsertIgnoresSuppliedIdAndTimestamps(t: Table, u: User, v: User, newId: Uuid, now: DateTime)
    requires u.name == v.name && u.birthDate == v.birthDate && u.customData == v.customData
    ensures Insert(t, u, newId, now) == Insert(t, v, newId, now)
  {
  }

  /** An update touches only its own row. */
  lemma UpdateLeavesOtherRows(t: Table, id: Uuid, data: CustomData, now: DateTime, other: Uuid)
    requires other != id
    ensures Select(Update(t, id, data, now).table, other) == Select(t, other)
  {
  }

  /** Two updates of one row: the second one's data and time win. */
  lemma LastUpdateWins(t: Table, id: Uuid, d1: CustomData, n1: DateTime, d2: CustomData, n2: DateTime)
    ensures Update(Update(t, id, d1, n1).table, id, d2, n2) == Update(t, id, d2, n2)
  {
  }

  /** After a delete the row is gone: a get of that id reports `RowNotFound`. */
  lemma GetAfterDelete(t: Table, id: Uuid)
    ensures Select(Delete(t, id).table, id) == Err(RowNotFound)
  {
  }

  /** Deleting a row just created returns that row and restores the table. */
  lemma DeleteUndoesCreate(t: Table, user: User, newId: Uuid, now: DateTime)
    requires newId !in t
    ensures Delete(Insert(t, user, newId, now).table, newId) == Step(Insert(t, user, newId, now).result, t)
  {
  }

  class PostgresRepository {
    /** The rows of the `users` table. */
    var users: Table

    ghost predicate Valid()
      reads this
    {
      WellKeyed(users)
    }

    /** A repository over a table holding `rows`. */
    constructor (rows: Table)
      requires WellKeyed(rows)
      ensures Valid() && users == rows
    {
      users := rows;
    }

    method GetUser(id: Uuid) returns (r: Result<User, SqlError>)
      requires Valid()
      ensures r == Select(users, id)
      ensures r.Ok? ==> r.value.id == Some(id)
    {
      if id in users {
        r := MeasureQuery("Get", Ok(users[id]));
      } else {
        r := MeasureQuery("Get", Err(RowNotFound));
      }
    }

    method CreateUser(user: User, newId: Uuid, now: DateTime) returns (r: Result<User, SqlError>)
      requires Valid()
      modifies this
      ensures Valid()
      ensures Step(r, users) == Insert(old(users), user, newId, now)
      ensures r.Ok? ==> r.value.id == Some(newId)
    {
      if newId in users {
        r := MeasureQuery("Create", Err(UniqueViolation));
      } else {
        var row := User(Some(newId), user.name, user.birthDate, Some(now), Some(now), user.customData);
        users := users[newId := row];
        r := MeasureQuery("Create", Ok(row));
      }
    }

    method UpdateUser(id: Uuid, customData: CustomData, now: DateTime) returns (r: Result<User, SqlError>)
      requires Valid()
      modifies this
      ensures Valid()
      ensures Step(r, users) == Update(old(users), id, customData, now)
      ensures r.Ok? ==> r.value.id == Some(id)
    {
      if id !in users {
        r := MeasureQuery("Update", Err(RowNotFound));
      } else {
        var row := users[id].(customData := Some(customData), updatedAt := Some(now));
        users := users[id := row];
        r := MeasureQuery("Update", Ok(row));
      }
    }

    method DeleteUser(id: Uuid) returns (r: Result<User, SqlError>)
      requires Valid()
      modifies this
      ensures Valid()
      ensures Step(r, users) == Delete(old(users), id)
      ensures r.Ok? ==> r.value.id == Some(id)
    {
      if id !in users {
        r := MeasureQuery("Delete", Err(RowNotFound));
      } else {
        var row := users[id];
        users := users - {id};
        r := MeasureQuery("Delete", Ok(row));
      }
    }
  }
}
