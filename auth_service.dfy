/** The client's session record in local storage (frontend/src/services/auth.js): login writes
    the token under `authToken` and the user as JSON under `user`, logout removes both, and the
    other calls only read them. `JSON.stringify` and `JSON.parse` are parameters; a parse that
    throws is `None`. The HTTP call of `login` is done by the caller, which passes its result. */
module AuthService {
  import opened Wrappers
  import opened Storage

  const TOKEN_KEY: string := "authToken"
  const USER_KEY: string := "user"

  /** The user object the backend returns at login. */
  datatype User = User(username: string, profile: string, employeeID: int)

  /** The login response body. */
  datatype LoginData = LoginData(accessToken: string, tokenType: string, user: User)

  /** The argument of `hasPermission`: an array of profiles, or one profile. */
  datatype Required = AnyOf(profiles: seq<string>) | Exactly(profile: string)

  /** What `getUser` finds: nothing (null), a user, or text `JSON.parse` throws on. */
  datatype StoredUser = NoUser | Found(user: User) | Unparsable

  /** The storage after `login`: the two keys written, every other key kept. */
  function LoggedIn(items: map<string, string>, data: LoginData, stringify: User -> string): (r: map<string, string>)
    ensures r.Keys == items.Keys + {TOKEN_KEY, USER_KEY}
    ensures r[TOKEN_KEY] == data.accessToken && r[USER_KEY] == stringify(data.user)
    ensures forall k :: k in items && k != TOKEN_KEY && k != USER_KEY ==> r[k] == items[k]
  {
    items[TOKEN_KEY := data.accessToken][USER_KEY := stringify(data.user)]
  }

  /** The storage after `logout`: exactly the two keys gone. */
  function LoggedOut(items: map<string, string>): (r: map<string, string>)
    ensures r.Keys == items.Keys - {TOKEN_KEY, USER_KEY}
    ensures forall k :: k in r ==> r[k] == items[k]
  {
    items - {TOKEN_KEY, USER_KEY}
  }

  /** `login`, after the server answered with `data`. */
  method Login(store: LocalStorage, data: LoginData, stringify: User -> string) returns (r: LoginData)
    modifies store
    ensures store.items == LoggedIn(old(store.items), data, stringify)
    ensures r == data
  {
    store.SetItem(TOKEN_KEY, data.accessToken);
    store.SetItem(USER_KEY, stringify(data.user));
    r := data;
  }

  /** `logout`. */
  method Logout(store: LocalStorage)
    modifies store
    ensures store.items == LoggedOut(old(store.items))
  {
    store.RemoveItem(TOKEN_KEY);
    store.RemoveItem(USER_KEY);
  }

  /** `isAuthenticated`: `!!getItem('authToken')`, so an empty token counts as absent. */
  function IsAuthenticated(items: map<string, string>): (b: bool)
    ensures b <==> TOKEN_KEY in items && items[TOKEN_KEY] != ""
  {
    match (if TOKEN_KEY in items then Some(items[TOKEN_KEY]) else None)
    case None => false
    case Some(token) => token != ""
  }

  /** `getUser`: null for a missing or empty entry, otherwise the parsed JSON. */
  function GetUser(items: map<string, string>, parse: string -> Option<User>): (r: StoredUser)
    ensures r.NoUser? <==> USER_KEY !in items || items[USER_KEY] == ""
    ensures r.Found? ==> parse(items[USER_KEY]) == Some(r.user)
    ensures r.Unparsable? ==> parse(items[USER_KEY]) == None
  {
    if USER_KEY !in items || items[USER_KEY] == "" then NoUser
    else match parse(items[USER_KEY])
      case None => Unparsable
      case Some(u) => Found(u)
  }

  /** `hasPermission`: false without a stored user; membership for an array, equality for a
      single profile. `None` when the stored text does not parse (the exception propagates). */
  function HasPermission(items: map<string, string>, parse: string -> Option<User>, required: Required): (r: Option<bool>)
    ensures r.None? <==> GetUser(items, parse).Unparsable?
    ensures GetUser(items, parse).NoUser? ==> r == Some(false)
    ensures GetUser(items, parse).Found? && required.AnyOf? ==>
              r == Some(GetUser(items, parse).user.profile in required.profiles)
    ensures GetUser(items, parse).Found? && required.Exactly? ==>
              r == Some(GetUser(items, parse).user.profile == required.profile)
  {
    match GetUser(items, parse)
    case NoUser => Some(false)
    case Unparsable => None
    case Found(u) =>
      match required
      case AnyOf(profiles) => Some(u.profile in profiles)
      case Exactly(profile) => Some(u.profile == profile)
  }

  /** After a login, the stored user reads back as the user the server sent, and the session
      counts as open exactly when the token is non-empty. */
  lemma LoginThenRead(items: map<string, string>, data: LoginData, stringify: User -> string, parse: string -> Option<User>)
    requires stringify(data.user) != "" && parse(stringify(data.user)) == Some(data.user)
    ensures GetUser(LoggedIn(items, data, stringify), parse) == Found(data.user)
    ensures IsAuthenticated(LoggedIn(items, data, stringify)) <==> data.accessToken != ""
    ensures HasPermission(LoggedIn(items, data, stringify), parse, Exactly(data.user.profile)) == Some(true)
  {
  }

  /** After a logout there is no session, no user and no permission, whatever was stored. */
  lemma LogoutClearsSession(items: map<string, string>, parse: string -> Option<User>, required: Required)
    ensures !IsAuthenticated(LoggedOut(items))
    ensures GetUser(LoggedOut(items), parse) == NoUser
    ensures HasPermission(LoggedOut(items), parse, required) == Some(false)
  {
  }

  /** Logging out after logging in restores the storage, except for entries the login
      overwrote. */
  lemma LogoutUndoesLogin(items: map<string, string>, data: LoginData, stringify: User -> string)
    ensures LoggedOut(LoggedIn(items, data, stringify)) == LoggedOut(items)
    ensures TOKEN_KEY !in items && USER_KEY !in items ==> LoggedOut(LoggedIn(items, data, stringify)) == items
  {
  }

  /** An array with one profile and that profile alone decide alike. */
  lemma SingleProfileAsArray(items: map<string, string>, parse: string -> Option<User>, p: string)
    ensures HasPermission(items, parse, AnyOf([p])) == HasPermission(items, parse, Exactly(p))
  {
  }
}
