/**
 * The client's session store: the signed-in user and token, hydrated from localStorage at
 * start-up and written back by setAuth and logout. JSON.stringify and JSON.parse of the user
 * object are the parameters `serialise` and `parse`; `parse` answers None where JSON.parse
 * throws, and Some(None) for the JSON null.
 */
module AuthStore {
  import opened Wrappers
  import opened Browser

  /** The user object the backend returns: {id, name, email}. */
  datatype User = User(id: int, name: string, email: string)

  /** localStorage.getItem("kv_token") || null */
  function StoredToken(storage: map<string, string>): (r: Option<string>)
    ensures r.Some? <==> Truthy(storage, TokenKey)
    ensures r.Some? ==> r.value == storage[TokenKey] && r.value != ""
  {
    if Truthy(storage, TokenKey) then Some(storage[TokenKey]) else None
  }

  /** JSON.parse(localStorage.getItem("kv_user") || "null"); None when the parse throws. */
  function StoredUser(storage: map<string, string>, parse: string -> Option<Option<User>>): (r: Option<Option<User>>)
    ensures !Truthy(storage, UserKey) ==> r == parse("null")
    ensures Truthy(storage, UserKey) ==> r == parse(storage[UserKey])
  {
    parse(GetOr(storage, UserKey, "null"))
  }

  /** isAuthenticated(): reads storage only, never the store's fields. */
  predicate Authenticated(storage: map<string, string>) {
    Truthy(storage, TokenKey)
  }

  class Store {
    var user: Option<User>
    var token: Option<string>
    const window: Window

    /** The store's initial state, read from storage. */
    constructor (window: Window, parse: string -> Option<Option<User>>)
      requires StoredUser(window.storage, parse).Some?
      ensures this.window == window
      ensures user == StoredUser(window.storage, parse).value
      ensures token == StoredToken(window.storage)
    {
      this.window := window;
      user := StoredUser(window.storage, parse).value;
      token := StoredToken(window.storage);
    }

    predicate IsAuthenticated()
      reads window
    {
      Authenticated(window.storage)
    }

    /** setAuth(user, token): both storage keys and both fields, nothing else. */
    method SetAuth(u: User, t: string, serialise: User -> string)
      modifies this, window
      ensures window.storage == old(window.storage)[TokenKey := t][UserKey := serialise(u)]
      ensures user == Some(u) && token == Some(t)
      ensures window.path == old(window.path) && window.dataTheme == old(window.dataTheme)
      ensures t != "" ==> IsAuthenticated()
    {
      window.storage := window.storage[TokenKey := t];
      window.storage := window.storage[UserKey := serialise(u)];
      user := Some(u);
      token := Some(t);
    }

    /** logout(): both storage keys removed and both fields null. */
    method Logout()
      modifies this, window
      ensures window.storage == ClearSession(old(window.storage))
      ensures user == None && token == None
      ensures window.path == old(window.path) && window.dataTheme == old(window.dataTheme)
      ensures !IsAuthenticated()
    {
      window.storage := window.storage - {TokenKey};
      window.storage := window.storage - {UserKey};
      user := None;
      token := None;
    }
  }

  /**
   * A page reload after setAuth hydrates the same session: the stored token, and the user as
   * long as JSON.parse inverts JSON.stringify.
   */
  lemma ReloadAfterSetAuth(storage: map<string, string>, u: User, t: string,
                           serialise: User -> string, parse: string -> Option<Option<User>>)
    requires t != "" && serialise(u) != "" && parse(serialise(u)) == Some(Some(u))
    ensures StoredToken(storage[TokenKey := t][UserKey := serialise(u)]) == Some(t)
    ensures StoredUser(storage[TokenKey := t][UserKey := serialise(u)], parse) == Some(Some(u))
    ensures Authenticated(storage[TokenKey := t][UserKey := serialise(u)])
  {
    var after := storage[TokenKey := t][UserKey := serialise(u)];
    assert after[TokenKey] == t;
  }

  /** A page reload after logout hydrates no session: null token, null user, not authenticated. */
  lemma ReloadAfterLogout(storage: map<string, string>, parse: string -> Option<Option<User>>)
    requires parse("null") == Some(None)
    ensures StoredToken(ClearSession(storage)) == None
    ensures StoredUser(ClearSession(storage), parse) == Some(None)
    ensures !Authenticated(ClearSession(storage))
  {
  }

  /** An empty token makes setAuth succeed without authenticating: isAuthenticated stays false. */
  lemma EmptyTokenNotAuthenticated(storage: map<string, string>, v: string)
    ensures !Authenticated(storage[TokenKey := ""][UserKey := v])
  {
    var after := storage[TokenKey := ""][UserKey := v];
    assert after[TokenKey] == "";
  }
}
