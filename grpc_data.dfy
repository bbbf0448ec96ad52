/**
 * The gRPC variant's storage access: a lookup of a user by name, and the
 * conversion of the database row into the wire message (protobuf `User`, whose
 * dates are `google.protobuf.Timestamp`s).
 */
module GrpcData {
  import opened Wrappers
  import opened Uuids
  import opened Chrono
  import opened SqlErrors

  /** A `serde_json::Value`. */
  datatype JsonValue =
    | JsonNull
    | JsonBool(b: bool)
    | JsonNumber(n: int)
    | JsonString(s: string)
    | JsonArray(items: seq<JsonValue>)
    | JsonObject(fields: seq<(string, JsonValue)>)

  /** A row of `users` as the query reads it. */
  datatype RawUser = RawUser(
    id: Uuid,
    name: string,
    birthDate: Option<NaiveDate>,
    createdAt: Option<DateTime>,
    updatedAt: Option<DateTime>,
    customData: JsonValue)

  /** `prost_types::Timestamp`. */
  datatype Timestamp = Timestamp(seconds: int, nanos: int)

  /** The wire `User`: it has no custom data. */
  datatype User = User(
    id: string,
    name: string,
    birthDate: Option<Timestamp>,
    createdAt: Option<Timestamp>,
    updatedAt: Option<Timestamp>)

  /** The `users` table, rows in the order the database scans them. */
  datatype PostgresRepository = PostgresRepository(rows: seq<RawUser>)

  /** `to_timestamp`: whole epoch seconds, the sub-second part dropped. */
  function ToTimestamp(datetime: Option<DateTime>): (r: Option<Timestamp>)
    ensures r.Some? <==> datetime.Some?
    ensures r.Some? ==> r.value.seconds == Chrono.Timestamp(datetime.value) && r.value.nanos == 0
  {
    match datetime
    case None => None
    case Some(dt) => Some(Timestamp(Chrono.Timestamp(dt), 0))
  }

  /** `naive_to_timestamp`: the epoch seconds of 00:00:00 UTC on the date. */
  function NaiveToTimestamp(date: Option<NaiveDate>): (r: Option<Timestamp>)
    ensures r.Some? <==> date.Some?
    ensures r.Some? ==> r.value.seconds == DaysFromCivil(date.value) * SecondsPerDay && r.value.nanos == 0
  {
    match date
    case None => None
    case Some(d) => Some(Timestamp(MidnightTimestamp(d), 0))
  }

  /** The timestamps of consecutive dates are one day apart; 1970-01-01 is second 0. */
  lemma NaiveToTimestampSteps(d: NaiveDate)
    ensures NaiveToTimestamp(Some(FromYmd(1970, 1, 1))) == Some(Timestamp(0, 0))
    ensures NaiveToTimestamp(Some(NextDay(d))).value.seconds == NaiveToTimestamp(Some(d)).value.seconds + SecondsPerDay
  {
    EpochIsDayZero();
    NextDayIsOneLater(d);
  }

  /** Two instants convert to the same timestamp exactly when they fall in the same second. */
  lemma ToTimestampDropsNanos(a: DateTime, b: DateTime)
    ensures ToTimestamp(Some(a)) == ToTimestamp(Some(b)) <==> a.date == b.date && a.secs == b.secs
    ensures ToTimestamp(Some(a)) == ToTimestamp(Some(a.(frac := 0)))
  {
    TimestampIdentifiesSecond(a, b);
  }

  /** Distinct dates convert to distinct timestamps. */
  lemma NaiveToTimestampInjective(d: NaiveDate, e: NaiveDate)
    ensures NaiveToTimestamp(Some(d)) == NaiveToTimestamp(Some(e)) <==> d == e
  {
    DaysFromCivilInjective(d, e);
  }

  /** `From<RawUser> for User`. */
  function FromRawUser(raw: RawUser): (u: User)
    ensures u.id == ToString(raw.id) && u.name == raw.name
    ensures u.birthDate == NaiveToTimestamp(raw.birthDate)
    ensures u.createdAt == ToTimestamp(raw.createdAt) && u.updatedAt == ToTimestamp(raw.updatedAt)
  {
    User(ToString(raw.id), raw.name, NaiveToTimestamp(raw.birthDate), ToTimestamp(raw.createdAt), ToTimestamp(raw.updatedAt))
  }

  /** The conversion ignores the custom data, and distinct row ids give distinct wire ids. */
  lemma FromRawUserDropsCustomData(raw: RawUser, other: RawUser, data: JsonValue)
    ensures FromRawUser(raw.(customData := data)) == FromRawUser(raw)
    ensures FromRawUser(raw).id == FromRawUser(other).id <==> raw.id == other.id
  {
    ToStringInjective(raw.id, other.id);
  }

  /** The position of the first row named `name`, if any. */
  function FirstNamed(rows: seq<RawUser>, name: string): (r: Option<nat>)
    ensures r.Some? ==> r.value < |rows| && rows[r.value].name == name
    ensures r.Some? ==> forall j :: 0 <= j < r.value ==> rows[j].name != name
    ensures r.None? ==> forall j :: 0 <= j < |rows| ==> rows[j].name != name
  {
    if |rows| == 0 then None
    else if rows[0].name == name then Some(0)
    else
      match FirstNamed(rows[1..], name)
      case None => None
      case Some(i) => Some(i + 1)
  }

  /**
   * `PostgresRepository::get_user`: `SELECT ... WHERE name = $1` read with
   * `fetch_one`, so the first matching row, converted, or `RowNotFound`.
   */
  function GetUser(repository: PostgresRepository, name: string): (r: Result<User, SqlError>)
    ensures r.Ok? <==> exists i :: 0 <= i < |repository.rows| && repository.rows[i].name == name
    ensures r.Ok? ==> r.value.name == name
    ensures r.Ok? ==> exists i :: 0 <= i < |repository.rows| && r.value == FromRawUser(repository.rows[i])
    ensures r.Err? ==> r.error == RowNotFound
  {
    match FirstNamed(repository.rows, name)
    case None => Err(RowNotFound)
    case Some(i) => Ok(FromRawUser(repository.rows[i]))
  }
}
