/** The React authentication context of frontend/src/contexts/AuthContext.jsx: the `user` and
    `loading` state of `AuthProvider` and the transitions that change them together with local
    storage. Toast messages are display only and are not modelled. */
module AuthContext {
  import opened Wrappers
  import opened Storage
  import opened AuthService

  class AuthProvider {
    var user: Option<User>
    var loading: bool
    const storage: LocalStorage

    /** The first render: no user, loading. */
    constructor (storage: LocalStorage)
      ensures user == None && loading
      ensures this.storage == storage
    {
      user := None;
      loading := true;
      this.storage := storage;
    }

    /** `isAuthenticated`: a user is set in the context. */
    function IsAuthenticated(): (b: bool)
      reads this
      ensures b <==> user != None
    {
      user.Some?
    }

    /** `hasPermission`: answered from local storage, not from the context's `user`. */
    function HasPermission(parse: string -> Option<User>, required: Required): (r: Option<bool>)
      reads this, storage
      ensures r == AuthService.HasPermission(storage.items, parse, required)
    {
      AuthService.HasPermission(storage.items, parse, required)
    }

    /** `initAuth`: with a stored token, the stored user becomes the context's user; a user
        entry that does not parse throws, and the handler logs out. `loading` ends false. */
    method InitAuth(parse: string -> Option<User>)
      modifies this, storage
      ensures !loading
      ensures !AuthService.IsAuthenticated(old(storage.items)) ==>
                user == old(user) && storage.items == old(storage.items)
      ensures user == InitialUser(old(storage.items), parse, old(user)).0
      ensures storage.items == if InitialUser(old(storage.items), parse, old(user)).1 then LoggedOut(old(storage.items))
                               else old(storage.items)
    {
      if AuthService.IsAuthenticated(storage.items) {
        match GetUser(storage.items, parse) {
          case Found(u) => user := Some(u);
          case NoUser => user := None;
          case Unparsable => AuthService.Logout(storage);
        }
      }
      loading := false;
    }

    /** `login`: `response` is what the server answered, `None` when the call failed. On
        success the session is stored and the user set; on failure the error is rethrown
        (`None`) and neither the user nor the storage changes. `loading` ends false. */
    method Login(response: Option<LoginData>, stringify: User -> string) returns (r: Option<LoginData>)
      modifies this, storage
      ensures !loading
      ensures r == response
      ensures response.Some? ==> user == Some(response.value.user)
                                 && storage.items == LoggedIn(old(storage.items), response.value, stringify)
      ensures response.None? ==> user == old(user) && storage.items == old(storage.items)
    {
      loading := true;
      match response {
        case None =>
          r := None;
        case Some(data) =>
          var stored := AuthService.Login(storage, data, stringify);
          user := Some(stored.user);
          r := Some(stored);
      }
      loading := false;
    }

    /** `logout`: the storage entries are removed and the user cleared. */
    method Logout()
      modifies this, storage
      ensures user == None && loading == old(loading)
      ensures storage.items == LoggedOut(old(storage.items))
    {
      AuthService.Logout(storage);
      user := None;
    }
  }

  /** The state `initAuth` reaches, as a function of the stored entries: the new user and
      whether the storage was cleared. */
  function InitialUser(items: map<string, string>, parse: string -> Option<User>, previous: Option<User>): (r: (Option<User>, bool))
    ensures !AuthService.IsAuthenticated(items) ==> r == (previous, false)
    ensures r.1 <==> AuthService.IsAuthenticated(items) && GetUser(items, parse).Unparsable?
  {
    if !AuthService.IsAuthenticated(items) then (previous, false)
    else match GetUser(items, parse)
      case Found(u) => (Some(u), false)
      case NoUser => (None, false)
      case Unparsable => (previous, true)
  }

  /** A reload after a successful login restores the same user (when the token is non-empty
      and the user's JSON reads back), so the context and the storage agree again. */
  lemma ReloadRestoresUser(items: map<string, string>, data: LoginData, stringify: User -> string,
                           parse: string -> Option<User>, previous: Option<User>)
    requires data.accessToken != ""
    requires stringify(data.user) != "" && parse(stringify(data.user)) == Some(data.user)
    ensures InitialUser(LoggedIn(items, data, stringify), parse, previous) == (Some(data.user), false)
  {
    LoginThenRead(items, data, stringify, parse);
  }

  /** A reload after a logout keeps whatever user the context held: with no token,
      `initAuth` does not touch `user`. */
  lemma ReloadAfterLogout(items: map<string, string>, parse: string -> Option<User>, previous: Option<User>)
    ensures InitialUser(LoggedOut(items), parse, previous) == (previous, false)
  {
  }

  /** The context and the storage can disagree: with a token but an empty user entry the
      context has no user, yet the storage still counts as authenticated. */
  lemma TokenWithoutUser(token: string, parse: string -> Option<User>, previous: Option<User>)
    requires token != ""
    ensures var items := map[TOKEN_KEY := token, USER_KEY := ""];
            InitialUser(items, parse, previous) == (None, false) && AuthService.IsAuthenticated(items)
  {
  }
}
