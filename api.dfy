/** The axios instance of frontend/src/services/api.js: a request interceptor that attaches
    the bearer token (section 2.1 of RFC 6750) read from local storage, a response interceptor
    that forgets the token and goes to the login page on a 401, its own `authService.logout`,
    and the URLs of the paged list calls. The HTTP calls themselves are not modelled. */
module Api {
  import opened Wrappers
  import opened Storage
  import Text
  import AuthService

  /** The key this file reads the token from. */
  const ACCESS_TOKEN_KEY: string := "access_token"
  const AUTHORIZATION: string := "Authorization"
  const LOGIN_PATH: string := "/login"

  /** The headers of the outgoing request after the request interceptor, as written: a
      non-empty `access_token` is sent as `Bearer <token>`; otherwise nothing changes. */
  function RequestHeaders(items: map<string, string>, headers: map<string, string>): (r: map<string, string>)
    ensures ACCESS_TOKEN_KEY in items && items[ACCESS_TOKEN_KEY] != "" ==>
              r == headers[AUTHORIZATION := "Bearer " + items[ACCESS_TOKEN_KEY]]
    ensures !(ACCESS_TOKEN_KEY in items && items[ACCESS_TOKEN_KEY] != "") ==> r == headers
  {
    var token := if ACCESS_TOKEN_KEY in items then items[ACCESS_TOKEN_KEY] else "";
    if token != "" then headers[AUTHORIZATION := "Bearer " + token] else headers
  }

  /** The interceptor reading the key the login actually writes. */
  function CorrectedRequestHeaders(items: map<string, string>, headers: map<string, string>): (r: map<string, string>)
    ensures AuthService.IsAuthenticated(items) ==> r == headers[AUTHORIZATION := "Bearer " + items[AuthService.TOKEN_KEY]]
    ensures !AuthService.IsAuthenticated(items) ==> r == headers
  {
    var token := if AuthService.TOKEN_KEY in items then items[AuthService.TOKEN_KEY] else "";
    if token != "" then headers[AUTHORIZATION := "Bearer " + token] else headers
  }

  /** As written: a login through auth.js leaves the request without credentials, whatever
      token the server issued, unless some older `access_token` happens to be stored. */
  lemma LoginTokenNotSent(items: map<string, string>, data: AuthService.LoginData, stringify: AuthService.User -> string,
                          headers: map<string, string>)
    requires ACCESS_TOKEN_KEY !in items
    ensures RequestHeaders(AuthService.LoggedIn(items, data, stringify), headers) == headers
  {
    assert ACCESS_TOKEN_KEY != AuthService.TOKEN_KEY && ACCESS_TOKEN_KEY != AuthService.USER_KEY;
  }

  /** Corrected: after a login with a non-empty token, every request carries that token. */
  lemma CorrectedLoginTokenSent(items: map<string, string>, data: AuthService.LoginData, stringify: AuthService.User -> string,
                                headers: map<string, string>)
    requires data.accessToken != ""
    ensures CorrectedRequestHeaders(AuthService.LoggedIn(items, data, stringify), headers)
            == headers[AUTHORIZATION := "Bearer " + data.accessToken]
  {
  }

  /** The error side of the response interceptor. On a 401 the token is removed and the
      browser sent to the login page (the returned location); any other error, or one without
      a response, changes nothing. The error itself is rejected again in every case. */
  method HandleResponseError(store: LocalStorage, status: Option<int>) returns (redirect: Option<string>)
    modifies store
    ensures status == Some(401) ==> store.items == old(store.items) - {ACCESS_TOKEN_KEY} && redirect == Some(LOGIN_PATH)
    ensures status != Some(401) ==> store.items == old(store.items) && redirect == None
  {
    if status == Some(401) {
      store.RemoveItem(ACCESS_TOKEN_KEY);
      redirect := Some(LOGIN_PATH);
    } else {
      redirect := None;
    }
  }

  /** `authService.logout` of this file: only `access_token` is removed, so the session that
      auth.js stored survives it. */
  method Logout(store: LocalStorage)
    modifies store
    ensures store.items == old(store.items) - {ACCESS_TOKEN_KEY}
  {
    store.RemoveItem(ACCESS_TOKEN_KEY);
  }

  /** What this logout leaves of a login made through auth.js: the whole session. */
  lemma LogoutKeepsAuthSession(items: map<string, string>)
    ensures AuthService.IsAuthenticated(items - {ACCESS_TOKEN_KEY}) == AuthService.IsAuthenticated(items)
    ensures (items - {ACCESS_TOKEN_KEY}) - {AuthService.TOKEN_KEY, AuthService.USER_KEY} == AuthService.LoggedOut(items) - {ACCESS_TOKEN_KEY}
  {
    assert ACCESS_TOKEN_KEY != AuthService.TOKEN_KEY;
  }

  const DEFAULT_SKIP: int := 0
  const DEFAULT_LIMIT: int := 100

  /** `/<resource>?skip=<skip>&limit=<limit>`, an omitted argument taking its default. */
  function ListUrl(resource: string, skip: Option<int>, limit: Option<int>): string
  {
    "/" + resource + "?" + Query(skip.GetOr(DEFAULT_SKIP), limit.GetOr(DEFAULT_LIMIT))
  }

  /** The query of a list URL reads back as the two arguments (or their defaults). */
  lemma {:induction false} ListUrlReadsBack(resource: string, skip: Option<int>, limit: Option<int>)
    requires '?' !in resource
    ensures var parts := Text.Split(ListUrl(resource, skip, limit), '?');
            |parts| == 2 && parts[0] == "/" + resource
            && Text.Split(parts[1], '&') == ["skip=" + Text.IntToString(skip.GetOr(0)), "limit=" + Text.IntToString(limit.GetOr(100))]
            && Text.ParseInt(Text.Split(parts[1], '&')[0][5..]) == Some(skip.GetOr(0))
            && Text.ParseInt(Text.Split(parts[1], '&')[1][6..]) == Some(limit.GetOr(100))
  {
    var path := "/" + resource;
    var query := Query(skip.GetOr(0), limit.GetOr(100));
    assert ListUrl(resource, skip, limit) == path + ['?'] + query;
    assert '?' !in path;
    QueryHasNoMark(skip.GetOr(0), limit.GetOr(100));
    Text.SplitAtFirst(path, '?', query);
    Text.SplitNoSeparator(query, '?');
    QueryReadsBack(skip.GetOr(0), limit.GetOr(100));
  }

  /** The part after the `?`. */
  function Query(skip: int, limit: int): string
  {
    "skip=" + Text.IntToString(skip) + "&limit=" + Text.IntToString(limit)
  }

  lemma QueryHasNoMark(skip: int, limit: int)
    ensures '?' !in Query(skip, limit)
  {
    NoSeparatorInNumber(skip, '?');
    NoSeparatorInNumber(limit, '?');
  }

  /** The query splits at its `&` into the two settings, each of which parses back. */
  lemma {:induction false} QueryReadsBack(skip: int, limit: int)
    ensures Text.Split(Query(skip, limit), '&') == ["skip=" + Text.IntToString(skip), "limit=" + Text.IntToString(limit)]
    ensures Text.ParseInt(Text.Split(Query(skip, limit), '&')[0][5..]) == Some(skip)
    ensures Text.ParseInt(Text.Split(Query(skip, limit), '&')[1][6..]) == Some(limit)
  {
    var s := Text.IntToString(skip);
    var l := Text.IntToString(limit);
    NoSeparatorInNumber(skip, '&');
    NoSeparatorInNumber(limit, '&');
    var first := "skip=" + s;
    var second := "limit=" + l;
    assert Query(skip, limit) == first + ['&'] + second;
    assert '&' !in first && '&' !in second;
    Text.SplitAtFirst(first, '&', second);
    Text.SplitNoSeparator(second, '&');
    assert first[5..] == s;
    assert second[6..] == l;
    Text.ParsePrintInt(skip);
    Text.ParsePrintInt(limit);
  }

  /** A printed integer holds only digits and perhaps a leading minus. */
  lemma NoSeparatorInNumber(i: int, c: char)
    requires c == '?' || c == '&'
    ensures c !in Text.IntToString(i)
  {
    var t := Text.IntToString(i);
    forall k | 0 <= k < |t|
      ensures t[k] != c
    {
      if i < 0 && k > 0 {
        assert t[1..][k - 1] == t[k];
      }
    }
  }
}
