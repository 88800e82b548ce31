/** Authentication (backend/auth.py): the login check, the access-token claims and the
    dependencies that turn a bearer token into the calling account. bcrypt's `verify`, the
    JWT `encode`/`decode` pair and the clock are parameters. */
module Auth {
  import opened Wrappers
  import opened Errors
  import opened AccountModel
  import opened Store
  import Text

  /** `ACCESS_TOKEN_EXPIRE_MINUTES` with no environment override. */
  const ACCESS_TOKEN_EXPIRE_MINUTES: int := 30
  const MICROS_PER_MINUTE: int := 60 * 1000000

  const CREDENTIALS_MESSAGE: string := "Impossible de valider les identifiants"
  const INACTIVE_MESSAGE: string := "Utilisateur inactif"
  const PROFILE_REQUIRED: string := "Profil requis: "
  const LOGIN_FAILED_MESSAGE: string := "Nom d'utilisateur ou mot de passe incorrect"

  /** How `authenticate_user` ends, in the order it checks. */
  datatype Verdict = NoSuchUser | WrongPassword | Inactive | Authenticated(account: Account)

  /** The checks of `authenticate_user`: lookup by username, then the password, then the active
      flag. */
  function CheckCredentials(accounts: map<int, Account>, username: string, password: string,
                            verify: (string, string) -> bool): (r: Verdict)
    requires UniqueUsernames(accounts)
    ensures r == NoSuchUser <==> !UsernameTaken(accounts, username)
    ensures r == WrongPassword <==> exists k :: k in accounts && accounts[k].username == username && !verify(password, accounts[k].password)
    ensures r == Inactive <==> exists k :: k in accounts && accounts[k].username == username && verify(password, accounts[k].password) && !accounts[k].isActive
    ensures r.Authenticated? <==> exists k :: k in accounts && accounts[k].username == username && verify(password, accounts[k].password) && accounts[k].isActive
    ensures r.Authenticated? ==> r.account in accounts.Values && r.account.username == username
  {
    match AccountNamed(accounts, username)
    case None => NoSuchUser
    case Some(a) =>
      if !verify(password, a.password) then WrongPassword
      else if !a.isActive then Inactive
      else Authenticated(a)
  }

  /** `authenticate_user`: on success the account's `lastLogin` becomes `now` and nothing else
      changes; on any failure the database is left as it was. */
  method AuthenticateUser(db: Session, username: string, password: string,
                          verify: (string, string) -> bool, now: int) returns (r: Option<Account>)
    requires db.Valid()
    modifies db
    ensures db.Valid()
    ensures r.Some? <==> old(CheckCredentials(db.accounts, username, password, verify)).Authenticated?
    ensures r.Some? ==> var a := old(CheckCredentials(db.accounts, username, password, verify)).account;
                        r.value == a.(lastLogin := Some(now))
                        && db.State() == old(db.State()).(accounts := old(db.accounts)[a.accountID := r.value])
    ensures r.None? ==> db.State() == old(db.State())
  {
    var verdict := CheckCredentials(db.accounts, username, password, verify);
    if !verdict.Authenticated? {
      return None;
    }
    var account := verdict.account.(lastLogin := Some(now));
    var committed := db.ReplaceAccount(account);
    assert AccountsOk(db.accounts) by {
      assert old(db.accounts)[account.accountID] == verdict.account;
      forall a, b | a in db.accounts && b in db.accounts
        ensures db.accounts[a].username == db.accounts[b].username ==> a == b
        ensures db.accounts[a].employeeID == db.accounts[b].employeeID ==> a == b
      {
      }
    }
    assert committed.Ok?;
    r := Some(account);
  }

  /** A JSON claim value. */
  datatype Claim = Str(s: string) | Num(n: int) | Null

  type Claims = map<string, Claim>

  /** The expiry instant: `now + delta` when a non-zero delta is given, else the default
      lifetime. A zero `timedelta` is falsy, so it takes the default too. */
  function Expiry(delta: Option<int>, now: int): (t: int)
    ensures delta.Some? && delta.value != 0 ==> t == now + delta.value
    ensures delta.None? || delta.value == 0 ==> t == now + ACCESS_TOKEN_EXPIRE_MINUTES * MICROS_PER_MINUTE
  {
    if delta.Some? && delta.value != 0 then now + delta.value
    else now + ACCESS_TOKEN_EXPIRE_MINUTES * MICROS_PER_MINUTE
  }

  /** The claims `create_access_token` encodes: a copy of `data` with `exp` set (the caller's
      map is a value and stays as it was). */
  function TokenClaims(data: Claims, delta: Option<int>, now: int): (r: Claims)
    ensures r.Keys == data.Keys + {"exp"}
    ensures r["exp"] == Num(Expiry(delta, now))
    ensures forall k :: k in data && k != "exp" ==> r[k] == data[k]
  {
    data["exp" := Num(Expiry(delta, now))]
  }

  /** `create_access_token` with `jwt.encode` as a parameter. */
  function CreateAccessToken(data: Claims, delta: Option<int>, now: int, encode: Claims -> string): string
  {
    encode(TokenClaims(data, delta, now))
  }

  /** Leaving the delta out and passing a zero delta give the same token. */
  lemma ZeroDeltaTakesDefault(data: Claims, now: int, encode: Claims -> string)
    ensures CreateAccessToken(data, Some(0), now, encode) == CreateAccessToken(data, None, now, encode)
    ensures TokenClaims(data, Some(0), now)["exp"] == Num(now + 30 * 60 * 1000000)
  {
  }

  /** `get_current_user`: decoding, then the `sub` claim, then the lookup; each failure is the
      same 401. `decode` returns None where `jwt.decode` raises (bad signature, expired token,
      a `sub` that is not a string). */
  function GetCurrentUser(accounts: map<int, Account>, token: string, decode: string -> Option<Claims>): (r: Result<Account, Error>)
    requires UniqueUsernames(accounts)
    ensures r.Ok? <==> decode(token).Some? && "sub" in decode(token).value && decode(token).value["sub"].Str?
                       && UsernameTaken(accounts, decode(token).value["sub"].s)
    ensures r.Ok? ==> r.value in accounts.Values && r.value.username == decode(token).value["sub"].s
    ensures r.Err? ==> r.error == Http(UNAUTHORIZED, CREDENTIALS_MESSAGE)
  {
    match decode(token)
    case None => Err(Http(UNAUTHORIZED, CREDENTIALS_MESSAGE))
    case Some(payload) =>
      if "sub" !in payload || !payload["sub"].Str? then Err(Http(UNAUTHORIZED, CREDENTIALS_MESSAGE))
      else
        match AccountNamed(accounts, payload["sub"].s)
        case None => Err(Http(UNAUTHORIZED, CREDENTIALS_MESSAGE))
        case Some(a) => Ok(a)
  }

  /** `get_current_active_user`: an inactive account is a 400, not a 401 or 403; an active one
      is passed through unchanged, as is an error from `get_current_user`. */
  function GetCurrentActiveUser(user: Result<Account, Error>): (r: Result<Account, Error>)
    ensures user.Err? ==> r == user
    ensures user.Ok? && user.value.isActive ==> r == user
    ensures user.Ok? && !user.value.isActive ==> r == Err(Http(BAD_REQUEST, INACTIVE_MESSAGE))
  {
    match user
    case Err(e) => Err(e)
    case Ok(a) => if !a.isActive then Err(Http(BAD_REQUEST, INACTIVE_MESSAGE)) else Ok(a)
  }

  /** The dependency `require_profile(allowed)` returns: 403 exactly when the caller's profile
      is not listed, naming the allowed profiles; otherwise the caller unchanged. */
  function RequireProfile(allowed: seq<string>, user: Result<Account, Error>): (r: Result<Account, Error>)
    ensures user.Err? ==> r == user
    ensures user.Ok? ==> (r.Ok? <==> ProfileValue(user.value.profile) in allowed)
    ensures r.Ok? ==> r == user
    ensures user.Ok? && r.Err? ==> r.error == Http(FORBIDDEN, PROFILE_REQUIRED + Text.Join(allowed, ", "))
  {
    match user
    case Err(e) => Err(e)
    case Ok(a) =>
      if ProfileValue(a.profile) !in allowed then Err(Http(FORBIDDEN, PROFILE_REQUIRED + Text.Join(allowed, ", ")))
      else Ok(a)
  }

  /** The administrator-only guard turns away every other profile. */
  lemma AdministratorOnly(a: Account)
    ensures RequireProfile(["Administrator"], Ok(a)).Ok? <==> a.profile == Administrator
    ensures a.profile != Administrator ==>
            RequireProfile(["Administrator"], Ok(a)) == Err(Http(FORBIDDEN, PROFILE_REQUIRED + "Administrator"))
  {
    ProfileRoundTrip(a.profile, Administrator, "Administrator");
    assert Text.Join(["Administrator"], ", ") == "Administrator";
  }

  /** The user part of the login response. */
  datatype LoginUser = LoginUser(username: string, profile: Profile, employeeID: int)

  /** The login response body. */
  datatype LoginResponse = LoginResponse(accessToken: string, tokenType: string, expiresIn: int, user: LoginUser)

  /** `POST /auth/login`: a 401 unless `authenticate_user` succeeds; otherwise a token whose
      `sub` is the username, valid for the configured number of minutes. */
  method Login(db: Session, username: string, password: string, verify: (string, string) -> bool,
               encode: Claims -> string, now: int) returns (r: Result<LoginResponse, Error>)
    requires db.Valid()
    modifies db
    ensures db.Valid()
    ensures r.Ok? <==> old(CheckCredentials(db.accounts, username, password, verify)).Authenticated?
    ensures r.Err? ==> r.error == Http(UNAUTHORIZED, LOGIN_FAILED_MESSAGE) && db.State() == old(db.State())
    ensures r.Ok? ==> var a := old(CheckCredentials(db.accounts, username, password, verify)).account;
                      r.value == LoginResponse(
                        encode(TokenClaims(map["sub" := Str(a.username)], Some(ACCESS_TOKEN_EXPIRE_MINUTES * MICROS_PER_MINUTE), now)),
                        "bearer", ACCESS_TOKEN_EXPIRE_MINUTES * 60, LoginUser(a.username, a.profile, a.employeeID))
                      && db.State() == old(db.State()).(accounts := old(db.accounts)[a.accountID := a.(lastLogin := Some(now))])
  {
    var user := AuthenticateUser(db, username, password, verify, now);
    if user.None? {
      return Err(Http(UNAUTHORIZED, LOGIN_FAILED_MESSAGE));
    }
    var a := user.value;
    var token := CreateAccessToken(map["sub" := Str(a.username)], Some(ACCESS_TOKEN_EXPIRE_MINUTES * MICROS_PER_MINUTE), now, encode);
    r := Ok(LoginResponse(token, "bearer", ACCESS_TOKEN_EXPIRE_MINUTES * 60, LoginUser(a.username, a.profile, a.employeeID)));
  }

  /** A token issued at login identifies the account it was issued for: when `decode` inverts
      `encode` on its claims, `get_current_user` finds that account by its username. */
  lemma {:induction false} LoginTokenIdentifiesUser(accounts: map<int, Account>, id: int, now: int,
                                                    encode: Claims -> string, decode: string -> Option<Claims>)
    requires AccountsOk(accounts) && id in accounts
    requires var c := TokenClaims(map["sub" := Str(accounts[id].username)], Some(ACCESS_TOKEN_EXPIRE_MINUTES * MICROS_PER_MINUTE), now);
             decode(encode(c)) == Some(c)
    ensures var token := CreateAccessToken(map["sub" := Str(accounts[id].username)], Some(ACCESS_TOKEN_EXPIRE_MINUTES * MICROS_PER_MINUTE), now, encode);
            GetCurrentUser(accounts, token, decode) == Ok(accounts[id])
  {
    var name := accounts[id].username;
    var c := TokenClaims(map["sub" := Str(name)], Some(ACCESS_TOKEN_EXPIRE_MINUTES * MICROS_PER_MINUTE), now);
    assert c["sub"] == Str(name);
    assert UsernameTaken(accounts, name);
    var token := CreateAccessToken(map["sub" := Str(name)], Some(ACCESS_TOKEN_EXPIRE_MINUTES * MICROS_PER_MINUTE), now, encode);
    var found := GetCurrentUser(accounts, token, decode);
    assert found.Ok?;
    var j :| j in accounts && accounts[j] == found.value;
    assert accounts[j].username == accounts[id].username;
  }
}
