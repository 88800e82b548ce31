/** User accounts as the backend stores them (backend/models/account.py): the profiles, the
    table row with its defaults and limits, the creation schema and the read projection that
    leaves the secrets out. */
module AccountModel {
  import opened Wrappers
  import opened Fields

  /** `ProfileType`. */
  datatype Profile = Validator | Supervisor | Administrator | Coordinator

  function ProfileValue(p: Profile): string
  {
    match p
    case Validator => "Validator"
    case Supervisor => "Supervisor"
    case Administrator => "Administrator"
    case Coordinator => "Coordinator"
  }

  /** Pydantic's enum validation for a profile. */
  function ParseProfile(v: string): (r: Option<Profile>)
    ensures r.Some? ==> ProfileValue(r.value) == v
  {
    if v == "Validator" then Some(Validator)
    else if v == "Supervisor" then Some(Supervisor)
    else if v == "Administrator" then Some(Administrator)
    else if v == "Coordinator" then Some(Coordinator)
    else None
  }

  const PROFILE_VALUES: seq<string> := ["Validator", "Supervisor", "Administrator", "Coordinator"]

  /** Serialising then parsing gives the profile back, and exactly four values parse. */
  lemma ProfileRoundTrip(p: Profile, q: Profile, v: string)
    ensures ParseProfile(ProfileValue(p)) == Some(p)
    ensures ProfileValue(p) == ProfileValue(q) ==> p == q
    ensures ParseProfile(v).Some? <==> v in PROFILE_VALUES
    ensures |PROFILE_VALUES| == 4
  {
    assert ParseProfile(ProfileValue(q)) == Some(q);
  }

  const USERNAME_MAX: nat := 50
  const PASSWORD_MAX: nat := 255
  const RESET_TOKEN_MAX: nat := 100

  /** A row of the `accounts` table. `password` holds the bcrypt hash. */
  datatype Account = Account(
    accountID: int,
    employeeID: int,
    username: string,
    password: string,
    profile: Profile,
    isActive: bool,
    lastLogin: Option<int>,
    resetToken: Option<string>,
    resetTokenExpiry: Option<int>,
    createdAt: int,
    updatedAt: int)

  /** The column widths of the table. */
  predicate RowFits(a: Account)
  {
    FitsIn(a.username, USERNAME_MAX) && FitsIn(a.password, PASSWORD_MAX)
    && (a.resetToken.Some? ==> FitsIn(a.resetToken.value, RESET_TOKEN_MAX))
  }

  /** `AccountCreate`. */
  datatype AccountCreate = AccountCreate(
    employeeID: int,
    username: string,
    password: string,
    profile: Profile,
    isActive: bool)

  /** A creation body that leaves out the optional fields: a validator, active. */
  function DefaultAccountCreate(employeeID: int, username: string, password: string): (b: AccountCreate)
    ensures b.profile == Validator && b.isActive
    ensures b.employeeID == employeeID && b.username == username && b.password == password
  {
    AccountCreate(employeeID, username, password, Validator, true)
  }

  /** The `max_length` constraints Pydantic checks on a creation body. */
  predicate CreateFits(b: AccountCreate)
  {
    FitsIn(b.username, USERNAME_MAX) && FitsIn(b.password, PASSWORD_MAX)
  }

  /** `Account.model_validate(data)` where `data` is the body with the password replaced by
      `hashed`. */
  function NewAccount(b: AccountCreate, hashed: string, id: int, now: int): (r: Account)
    ensures r.accountID == id && r.createdAt == now && r.updatedAt == now
    ensures r.employeeID == b.employeeID && r.username == b.username && r.password == hashed
    ensures r.profile == b.profile && r.isActive == b.isActive
    ensures r.lastLogin == None && r.resetToken == None && r.resetTokenExpiry == None
    ensures FitsIn(b.username, USERNAME_MAX) && FitsIn(hashed, PASSWORD_MAX) ==> RowFits(r)
  {
    Account(id, b.employeeID, b.username, hashed, b.profile, b.isActive, None, None, None, now, now)
  }

  /** `AccountRead`: what the API returns for an account. */
  datatype AccountRead = AccountRead(
    accountID: int,
    employeeID: int,
    username: string,
    profile: Profile,
    isActive: bool,
    lastLogin: Option<int>,
    createdAt: int,
    updatedAt: int)

  /** The response-model projection of a row. */
  function ReadOf(a: Account): AccountRead
  {
    AccountRead(a.accountID, a.employeeID, a.username, a.profile, a.isActive, a.lastLogin, a.createdAt, a.updatedAt)
  }

  /** The projection reveals nothing of the password hash or the reset token: two rows that
      differ only there read the same, and rows that differ elsewhere read differently. */
  lemma ReadHidesSecrets(a: Account, b: Account)
    ensures ReadOf(a) == ReadOf(b) <==>
            a.(password := b.password, resetToken := b.resetToken, resetTokenExpiry := b.resetTokenExpiry) == b
  {
  }
}
