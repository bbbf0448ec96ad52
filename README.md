# Users service, REST and gRPC variants, in Dafny

This project models the request pipeline of two small Rust services. Both expose a
`users` table. Before every get, update and delete, the REST variant (actix-web)
rejects a caller whose identity is not the user's id; a request that carries no
caller identity goes through. It then runs one SQL statement and maps
storage errors to HTTP statuses. The gRPC variant (tonic) looks users up by name,
converts database rows into protobuf messages, and puts a static bearer-token
interceptor in front of its two RPCs.

The model has these modules:

- `Uuids`: a UUID is a 128-bit value. `ToString` gives the lower-case 8-4-4-4-12 hex
  form. It is proved injective through a left inverse.
- `Chrono`: a `NaiveDate` is a valid proleptic Gregorian date. A `DateTime<Utc>` is
  a date, a second of that day and nanoseconds, as chrono stores it.
  `DaysFromCivil` counts days since 1970-01-01 and is proved injective.
- `SqlErrors`, `Http`, `Tonic`: the parts of sqlx, actix-web and tonic that the code
  relies on, as plain values.
- `Models`: the REST records `User` and `CustomData`, with `User::default()`.
- `Macros`: `authorized!`, `svc_err!`, `svc_response!` and `measure_query!`.
- `Repository`: one pure function per SQL statement, giving the statement's result
  and the table afterwards. The class `PostgresRepository` holds the table as a
  `map` and updates it in place.
- `ServiceErrors`, `Service`: `ServiceError`, the guarded service calls as
  functions, and the classes `Rpts02Service` and `ServiceInjector`.
- `Handlers`: the four `/users` handlers.
- `GrpcData`, `GrpcService`, `GrpcMain`: the row-to-wire conversion, lookup by
  name, the two RPCs and the interceptor.

The clock and the database's id generator become parameters (`now`, `newId`).

## Model

| member | source | states |
|---|---|---|
| `Uuids.ToStringInjective` | 02-rest-api/src/macros.rs:5 | two UUIDs have equal string forms iff they are equal, so comparing `to_string` compares ids |
| `Uuids.ToStringLeftInverse` | 01-grpc-server/src/data.rs:50 | the 128 bits can be read back from the hyphenated hex string |
| `Chrono.FromYmd` | 02-rest-api/src/models.rs:21 | `from_ymd` accepts only an existing day and builds exactly that date |
| `Chrono.EpochIsDayZero` | 01-grpc-server/src/data.rs:68 | 1970-01-01 is day 0 of the epoch |
| `Chrono.NextDayIsOneLater` | 01-grpc-server/src/data.rs:68 | the day after any date has the next day number, across month and year ends and leap days |
| `Chrono.DayOf1977March10` | 02-rest-api/src/models.rs:21 | the default birth date 1977-03-10 is day 2625 |
| `Chrono.DaysFromCivilInjective` | 01-grpc-server/src/data.rs:68 | two dates have the same day number iff they are the same date |
| `Chrono.MidnightTimestamp` | 01-grpc-server/src/data.rs:68 | `and_hms(0, 0, 0).timestamp()` is a whole number of days, and that number is the date's day number |
| `Chrono.Timestamp` | 01-grpc-server/src/data.rs:61 | `timestamp()` divided by 86400 is the date's day number, and the remainder is the second of the day |
| `Chrono.TimestampIdentifiesSecond` | 01-grpc-server/src/data.rs:61 | two instants have the same `timestamp()` iff they have the same date and second of the day |
| `SqlErrors.Display` | 02-rest-api/src/v1/service.rs:14-15 | the text of every sqlx error is non-empty and does not start with `U`; a database error's text is a fixed prefix followed by the database's own detail |
| `SqlErrors.DisplayInjective` | 02-rest-api/src/v1/service.rs:14-15 | two sqlx errors have the same text iff they are the same error |
| `ServiceErrors.Message` | 02-rest-api/src/v1/service.rs:12-15 | a storage error shows its own text (`transparent`); the `Unauthorized` text is not the text of any storage error |
| `ServiceErrors.MessageIdentifiesError` | 02-rest-api/src/v1/service.rs:12-15 | two service errors have the same text iff they are the same error |
| `Models.DefaultCustomData` | 02-rest-api/src/models.rs:29-34 | the derived default has `random = 0` |
| `Models.DefaultUser` | 02-rest-api/src/models.rs:16-27 | `id = None`, `name = ""`, birth date 1977-03-10, both timestamps and custom data `None` |
| `ServiceErrors.FromSql` | 02-rest-api/src/v1/service.rs:14-15 | `map_err(into)` keeps successes and turns storage error `e` into `DbError(e)` |
| `Macros.Authorized` | 02-rest-api/src/macros.rs:2-10 | with no caller the guard passes; a caller presenting UUID `v`'s string passes on the id iff the id is `v` |
| `Macros.AuthorizedCases` | 02-rest-api/src/macros.rs:2-10 | with no caller the guard passes; with caller `c` it passes iff `c` is the id's string |
| `Macros.AuthorizedIffOwner` | 02-rest-api/src/macros.rs:4-7 | a caller presenting UUID `v`'s string passes on `u` iff `u == v` |
| `Macros.SvcErr` | 02-rest-api/src/macros.rs:13-21 | 401 iff `Unauthorized`, 404 iff `DbError(RowNotFound)`, 500 iff any other `DbError`; 500 carries "Database Error" and the others carry the error's own text |
| `Macros.SvcErrHidesStorageDetail` | 02-rest-api/src/macros.rs:18 | all storage errors other than a missing row give the same HTTP error, whatever their detail |
| `Macros.SvcResponse` | 02-rest-api/src/macros.rs:24-37 | `Ok(v)` gives a response with the given status, `Location` and body `v`; `Err(e)` gives exactly `SvcErr(e)` |
| `Macros.MeasureQuery` | 02-rest-api/src/macros.rs:40-51 | the block's value is returned unchanged |
| `Repository.Select` | 02-rest-api/src/v1/repository.rs:45-59 | the row stored under the id, or `RowNotFound` iff there is none; in a well-keyed table the row's `id` is the requested id |
| `Repository.Insert` | 02-rest-api/src/v1/repository.rs:62-78 | the new row takes only name, birth date and custom data from the input, gets the assigned id and `now` in both timestamps, and is added; an id already in use fails and changes nothing; rows stay keyed by their id |
| `Repository.Update` | 02-rest-api/src/v1/repository.rs:81-98 | sets `custom_data = d` and `updated_at = now`; id, name, birth date and `created_at` are kept; the updated row is returned and replaces the old one; in a well-keyed table its `id` is the requested id; a missing id gives `RowNotFound` and changes nothing |
| `Repository.Delete` | 02-rest-api/src/v1/repository.rs:101-115 | returns the row as it was and removes exactly it; in a well-keyed table its `id` is the requested id; a missing id gives `RowNotFound` and changes nothing |
| `Repository.GetAfterCreate` | 02-rest-api/src/v1/repository.rs:67-69 | the id returned by create is the assigned one, and a get with it returns the created row |
| `Repository.InsertIgnoresSuppliedIdAndTimestamps` | 02-rest-api/src/v1/repository.rs:67-73 | two inputs that agree on name, birth date and custom data insert the same row |
| `Repository.UpdateLeavesOtherRows` | 02-rest-api/src/v1/repository.rs:86-88 | an update leaves every other row as it was |
| `Repository.LastUpdateWins` | 02-rest-api/src/v1/repository.rs:86-88 | two updates of one row have the same effect as the second alone |
| `Repository.GetAfterDelete` | 02-rest-api/src/v1/repository.rs:106-108 | after a delete, a get of that id gives `RowNotFound` |
| `Repository.DeleteUndoesCreate` | 02-rest-api/src/v1/repository.rs:106-108 | deleting a just-created row returns it and restores the table |
| `Repository.PostgresRepository.constructor` | 02-rest-api/src/v1/repository.rs:21-23 | the repository starts over the given well-keyed table |
| `Repository.PostgresRepository.GetUser` | 02-rest-api/src/v1/repository.rs:45-59 | returns `Select` of the table and changes nothing; a returned row has the requested id |
| `Repository.PostgresRepository.CreateUser` | 02-rest-api/src/v1/repository.rs:62-78 | result and new table are those of `Insert` on the old table; the table stays well keyed, and a returned row has the assigned id |
| `Repository.PostgresRepository.UpdateUser` | 02-rest-api/src/v1/repository.rs:81-98 | result and new table are those of `Update` on the old table; the table stays well keyed, and a returned row has the requested id |
| `Repository.PostgresRepository.DeleteUser` | 02-rest-api/src/v1/repository.rs:101-115 | result and new table are those of `Delete` on the old table; the table stays well keyed, and a returned row has the requested id |
| `Service.GetUserOutcome` | 02-rest-api/src/v1/service.rs:77-83 | `Unauthorized` iff the guard fails; otherwise the repository's get with its error wrapped |
| `Service.UpdateUserOutcome` | 02-rest-api/src/v1/service.rs:86-97 | `Unauthorized` iff the guard fails, and then the table is unchanged; otherwise the repository's update of the given custom data, with its error wrapped |
| `Service.CreateUserOutcome` | 02-rest-api/src/v1/service.rs:100-105 | never `Unauthorized`; it is the repository's insert with its error wrapped |
| `Service.DeleteUserOutcome` | 02-rest-api/src/v1/service.rs:108-114 | `Unauthorized` iff the guard fails, and then the table is unchanged; otherwise the repository's delete with its error wrapped |
| `Service.ForeignCallerRejected` | 02-rest-api/src/v1/service.rs:206-228 | a caller whose identity is not the id's string gets `Unauthorized` from get, update and delete, and the table is unchanged |
| `Service.OwnerOrAnonymousPassesThrough` | 02-rest-api/src/v1/service.rs:160-204 | with no caller, or the owner as caller, get, update and delete return the repository's result |
| `Service.RefusedIffNotOwner` | 02-rest-api/src/v1/service.rs:77-83 | the caller holding UUID `v`'s string is refused on `u` iff `u != v` |
| `Service.MissingRowIsDbError` | 02-rest-api/src/v1/service.rs:230-252 | a missing row comes back as `DbError(RowNotFound)` from get, update and delete |
| `Service.OwnerLifecycle` | 02-rest-api/src/v1/service.rs:76-114 | the owner can create, read back, update and delete a user; the update keeps name and `created_at` and stamps the new time; delete returns the last version; a later get fails with `RowNotFound` and the table is as before |
| `Service.Rpts02Service.constructor` | 02-rest-api/src/v1/service.rs:67-72 | the service wraps the given repository |
| `Service.Rpts02Service.GetUser` | 02-rest-api/src/v1/service.rs:77-83 | returns `GetUserOutcome` on the repository's table |
| `Service.Rpts02Service.UpdateUser` | 02-rest-api/src/v1/service.rs:86-97 | result and new table are `UpdateUserOutcome` of the old table |
| `Service.Rpts02Service.CreateUser` | 02-rest-api/src/v1/service.rs:100-105 | result and new table are `CreateUserOutcome` of the old table |
| `Service.Rpts02Service.DeleteUser` | 02-rest-api/src/v1/service.rs:108-114 | result and new table are `DeleteUserOutcome` of the old table |
| `Service.ServiceInjector.constructor` | 02-rest-api/src/v1/service.rs:47-59 | the injector dereferences to the service it was built with |
| `Handlers.PostResponse` | 02-rest-api/src/v1/handlers.rs:35-46 | success is 201 with `Location = path + "/" + id` and the user as body, provided the user has an id; failure is `SvcErr` |
| `Handlers.HandlersMapErrors` | 02-rest-api/src/v1/handlers.rs:188-243 | every handler maps `Unauthorized` to 401, `RowNotFound` to 404 and other storage errors to 500 "Database Error" |
| `Handlers.PostLocationNamesCreatedUser` | 02-rest-api/src/v1/handlers.rs:38 | two created users get the same `Location` iff they have the same id |
| `Handlers.Get` | 02-rest-api/src/v1/handlers.rs:15-27 | calls the service's get with `auth.user` unchanged and answers 200 with `Location` = request path, or `SvcErr` |
| `Handlers.Post` | 02-rest-api/src/v1/handlers.rs:30-47 | calls the service's create with no caller identity and answers `PostResponse` |
| `Handlers.Patch` | 02-rest-api/src/v1/handlers.rs:50-65 | calls the service's update with `auth.user` and the body's custom data unchanged, and answers 200 with `Location` = request path, or `SvcErr` |
| `Handlers.Delete` | 02-rest-api/src/v1/handlers.rs:68-80 | calls the service's delete with `auth.user` unchanged and answers 200 with `Location` = request path, or `SvcErr` |
| `GrpcData.ToTimestamp` | 01-grpc-server/src/data.rs:59-64 | `None` stays `None`; a datetime becomes its epoch seconds with `nanos = 0` |
| `GrpcData.ToTimestampDropsNanos` | 01-grpc-server/src/data.rs:60-63 | two instants give the same timestamp iff they fall in the same second; the nanoseconds never matter |
| `GrpcData.NaiveToTimestamp` | 01-grpc-server/src/data.rs:66-71 | `None` stays `None`; a date becomes the epoch seconds of its midnight with `nanos = 0` |
| `GrpcData.NaiveToTimestampSteps` | 01-grpc-server/src/data.rs:66-71 | 1970-01-01 converts to second 0, and consecutive dates are 86400 seconds apart |
| `GrpcData.NaiveToTimestampInjective` | 01-grpc-server/src/data.rs:66-71 | two dates convert to the same timestamp iff they are the same date |
| `GrpcData.FromRawUser` | 01-grpc-server/src/data.rs:47-57 | `id` is the UUID's string, `name` is copied, and dates and timestamps are converted |
| `GrpcData.FromRawUserDropsCustomData` | 01-grpc-server/src/data.rs:44-56 | custom data does not affect the wire user, and distinct row ids give distinct wire ids |
| `GrpcData.FirstNamed` | 01-grpc-server/src/data.rs:23-29 | the index of the first row with the name, or none iff no row has it |
| `GrpcData.GetUser` | 01-grpc-server/src/data.rs:20-34 | succeeds iff some row has the name, returning that row converted; otherwise `RowNotFound` |
| `GrpcService.SayHi` | 01-grpc-server/src/service.rs:14-19 | never fails; the message is `"Hello " + hello + "! How are you?"` |
| `GrpcService.SayHiRecoversHello` | 01-grpc-server/src/service.rs:16 | removing the fixed text from the greeting gives back the request's text |
| `GrpcService.SayHiRob` | 01-grpc-server/src/service.rs:16 | the request `"Rob"` gets exactly "Hello Rob! How are you?" |
| `GrpcService.GetUser` | 01-grpc-server/src/service.rs:21-29 | looks up the request's name; success returns the repository's user unchanged; every failure becomes `NotFound` with a message naming the user and the error |
| `GrpcService.NotFoundMessage` | 01-grpc-server/src/service.rs:25 | the message starts with "No user with name " and the name, and ends with the error's text |
| `GrpcService.MapLookupError` | 01-grpc-server/src/service.rs:24-26 | a found user passes unchanged; every repository error, whichever it is, becomes `NotFound` with the message for that name and error |
| `GrpcService.NotFoundNamesUser` | 01-grpc-server/src/service.rs:24-26 | the `NotFound` message starts with "No user with name " followed by the name |
| `GrpcMain.Interceptor` | 01-grpc-server/src/main.rs:37-44 | accepts iff the `authorization` entry is present and equals "Bearer myjwttoken"; an accepted request is returned unchanged; otherwise `Unauthenticated` "The token is invalid" |
| `GrpcMain.InterceptorReadsOnlyAuthorization` | 01-grpc-server/src/main.rs:40-42 | a missing entry is refused, and no other metadata affects the decision |

## Left out

- Process start-up is not part of this model: `main` of the REST variant, tracing, CORS, compression, Prometheus and the Cognito validator set-up. So are `health.rs`, the route registration in `v1/mod.rs` and the protobuf build script.
- Pool construction (`build`, `build_from_env`, `PgPool::new`) and the `DATABASE_URL` lookup are I/O and are left out.
- The SQL engine is replaced by an in-memory table. The REST table is a map keyed by id. The gRPC table is a sequence of rows.
- SqlErrors.Display: sqlx's other variants (I/O, TLS, protocol, decode, pool closed, configuration) are represented as `Database(message)`, so their model text carries the "error returned from database: " prefix instead of their own text; this text is what `GrpcService.NotFoundMessage` appends.
- GrpcData.GetUser: the in-memory lookup never reports a pool time-out, an I/O failure or a decode failure; it fails only with `RowNotFound`. `GrpcService.MapLookupError` states the mapping for every error.
- Repository.Select: the in-memory table never reports a pool time-out or a database failure; it fails only with `RowNotFound`. So get, update and delete never yield the 500 answer, and create yields it only on the modelled unique-key violation; the 500 answer for other storage failures is stated over arbitrary service results by `Macros.SvcErr` and `Handlers.HandlersMapErrors`.
- Repository.Update: as for `Repository.Select`, the only failure is `RowNotFound`.
- Repository.Delete: as for `Repository.Select`, the only failure is `RowNotFound`.
- GrpcData.GetUser: without `ORDER BY`, the database may return any row with the name. The model picks the first in sequence order.
- The clock (`Utc::now()`, `Instant::now()`) and the database's id generator are parameters.
- The migration that creates the table is not part of this model. The model assumes `created_at` and `updated_at` default to the insert time.
- Repository.Update sets `updated_at` to `now`. Nothing in the code makes that later than the stored `updated_at`, so "strictly later" is not proved.
- Repository.Insert and Repository.Update store `now` exactly. A Postgres `timestamptz` keeps microseconds, so the stored value would be `now` rounded to microseconds.
- Repository.Insert: the only storage failure modelled is the unique-key violation, which a generated id already in use gives. The database's own generator makes that practically impossible.
- The `Service` and `Repository` traits (dynamic dispatch) and the mockall doubles in the tests are left out. `Rpts02Service` is modelled over the in-memory repository only.
- Logging is left out: `measure_query!` timing, `log::error!` in `svc_response!` and its message argument, and `println!`.
- serde/JSON encoding, including the camelCase rename, is left out. Response bodies are kept as the values they would serialise.
- async/await and `Send`/`Sync` are left out. The model is sequential.
- The chrono year range and the `i64`/`i32` widths of `Timestamp` are not modelled. chrono limits years to about ±262,000, so every value fits.
- GrpcService.GetUser: the error in the message is anyhow's `{:?}`. It is modelled as the sqlx error's display text, without any backtrace and without the `Caused by:` chain that a database error's inner source adds.
- Tonic metadata keys are case-insensitive and may repeat. The model keeps one value per key, which is what `get` returns, and assumes keys arrive lower-case.
- The REST `User.birth_date` is a required `NaiveDate` (02-rest-api/src/models.rs:10), so an optional birth date is not modelled there; the gRPC row's is optional (01-grpc-server/src/data.rs:41).
