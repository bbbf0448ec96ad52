/**
 * The part of `sqlx::Error` the code distinguishes. `RowNotFound` is what
 * `fetch_one` reports when the statement yields no row; the handler tests also
 * use `PoolTimedOut`; every other failure is folded into `Database`.
 */
module SqlErrors {

  datatype SqlError = RowNotFound | PoolTimedOut | Database(message: string)

  /** The `Display` text of each error; `Database` carries the storage's own detail. */
  function Display(e: SqlError): (r: string)
    ensures e.Database? ==> |DatabasePrefix| <= |r| && r[..|DatabasePrefix|] == DatabasePrefix && r[|DatabasePrefix|..] == e.message
    ensures 0 < |r| && r[0] != 'U'
  {
    match e
    case RowNotFound => "no rows returned by a query " + "that expected to return at least one row"
    case PoolTimedOut => "pool timed out " + "while waiting for an open connection"
    case Database(message) => DatabasePrefix + message
  }

  const DatabasePrefix := "error returned from database: "

  /** The text tells the errors apart: equal texts mean equal errors. */
  lemma DisplayInjective(a: SqlError, b: SqlError)
    ensures Display(a) == Display(b) <==> a == b
  {
    if Display(a) == Display(b) {
      assert Display(a)[0] == Display(b)[0];
      if a.Database? && b.Database? {
        assert a.message == Display(a)[|DatabasePrefix|..];
      }
    }
  }
}
