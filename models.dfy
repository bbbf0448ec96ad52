/** The records of the REST variant: a user row and its custom data. */
module Models {
  import opened Wrappers
  import opened Uuids
  import opened Chrono

  /** Rust's `u32`. */
  type U32 = n: int | 0 <= n < 0x1_0000_0000

  datatype CustomData = CustomData(random: U32)

  /**
   * A user as stored and as exchanged in JSON. `id` and the two timestamps are
   * absent on a user that does not come from storage.
   */
  datatype User = User(
    id: Option<Uuid>,
    name: string,
    birthDate: NaiveDate,
    createdAt: Option<DateTime>,
    updatedAt: Option<DateTime>,
    customData: Option<CustomData>)

  /** `CustomData::default()`, derived: every field at its default. */
  function DefaultCustomData(): (c: CustomData)
    ensures c.random == 0
  {
    CustomData(0)
  }

  /** `User::default()`. */
  function DefaultUser(): (u: User)
    ensures u.id == None && u.name == ""
    ensures u.birthDate.year == 1977 && u.birthDate.month == 3 && u.birthDate.day == 10
    ensures u.createdAt == None && u.updatedAt == None && u.customData == None
  {
    User(None, "", FromYmd(1977, 3, 10), None, None, None)
  }
}
