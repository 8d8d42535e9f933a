/**
 * The browser globals the client reads and writes: localStorage (a string-to-string map), the
 * current location, and the data-theme attribute of the document element.
 */
module Browser {
  import opened Wrappers

  const TokenKey := "kv_token"
  const UserKey := "kv_user"
  const ThemeKey := "kv_theme"

  class Window {
    /** localStorage */
    var storage: map<string, string>
    /** The path the page is at: window.location.href for a reload, the router for navigate(). */
    var path: string
    /** document.documentElement's data-theme attribute, None until set. */
    var dataTheme: Option<string>

    constructor (storage: map<string, string>, path: string)
      ensures this.storage == storage && this.path == path && dataTheme == None
    {
      this.storage := storage;
      this.path := path;
      dataTheme := None;
    }
  }

  /** !!localStorage.getItem(key): the key is present and its value is not the empty string. */
  predicate Truthy(storage: map<string, string>, key: string) {
    key in storage && storage[key] != ""
  }

  /** localStorage.getItem(key) || fallback */
  function GetOr(storage: map<string, string>, key: string, fallback: string): (r: string)
    ensures Truthy(storage, key) ==> r == storage[key]
    ensures !Truthy(storage, key) ==> r == fallback
  {
    if Truthy(storage, key) then storage[key] else fallback
  }

  /** localStorage.removeItem of the two session keys. */
  function ClearSession(storage: map<string, string>): (r: map<string, string>)
    ensures TokenKey !in r && UserKey !in r
    ensures forall k :: k != TokenKey && k != UserKey ==> (k in r <==> k in storage)
    ensures forall k :: k in r ==> r[k] == storage[k]
  {
    storage - {TokenKey, UserKey}
  }

  /** Clearing the session twice is clearing it once. */
  lemma ClearSessionIdempotent(storage: map<string, string>)
    ensures ClearSession(ClearSession(storage)) == ClearSession(storage)
  {
  }
}
