/**
 * The client's routing: the query-client defaults, the two guards that read the stored token,
 * and the route table with its redirects.
 */
module App {
  import opened Browser
  import opened Text

  /** QueryClient defaultOptions.queries */
  const QueryRetry: nat := 1
  const QueryStaleTimeMs: nat := 30000

  datatype Page = LoginPage | RegisterPage | DashboardPage | NotesPage | DocumentsPage | SearchPage

  /** What a route renders: a page, or a <Navigate to=... replace />. */
  datatype View = Show(page: Page) | Redirect(to: string)

  /** ProtectedRoute: the children when a token is stored, else a redirect to /login. */
  function Protected(storage: map<string, string>, children: View): (v: View)
    ensures Truthy(storage, TokenKey) ==> v == children
    ensures !Truthy(storage, TokenKey) ==> v == Redirect("/login")
  {
    if Truthy(storage, TokenKey) then children else Redirect("/login")
  }

  /** PublicRoute: the children when no token is stored, else a redirect to /dashboard. */
  function Public(storage: map<string, string>, children: View): (v: View)
    ensures !Truthy(storage, TokenKey) ==> v == children
    ensures Truthy(storage, TokenKey) ==> v == Redirect("/dashboard")
  {
    if !Truthy(storage, TokenKey) then children else Redirect("/dashboard")
  }

  /** For every storage state exactly one of the two guards lets its children through. */
  lemma ExactlyOneGuardAdmits(storage: map<string, string>, p: Page, q: Page)
    ensures (Protected(storage, Show(p)) == Show(p)) != (Public(storage, Show(q)) == Show(q))
  {
  }

  /** The path without its trailing slashes. */
  function TrimSlashes(s: string): (r: string)
    ensures |r| <= |s| && r == s[..|r|]
    ensures r == [] || r[|r| - 1] != '/'
    ensures forall k :: |r| <= k < |s| ==> s[k] == '/'
    decreases |s|
  {
    if |s| > 0 && s[|s| - 1] == '/' then TrimSlashes(s[..|s| - 1]) else s
  }

  /**
   * The form in which React Router compares a location with a route path: the match ignores
   * ASCII case and any number of trailing slashes, so "/Notes/" is "/notes" and "//" is "/".
   */
  function RouteKey(path: string): string {
    if |path| > 0 && path[0] == '/' then "/" + LowerStr(TrimSlashes(path[1..])) else path
  }

  /** The route table on route keys. Unknown keys go to /dashboard. */
  function Route(key: string, storage: map<string, string>): View {
    if key == "/login" then Public(storage, Show(LoginPage))
    else if key == "/register" then Public(storage, Show(RegisterPage))
    else if key == "/" then Protected(storage, Redirect("/dashboard"))
    else if key == "/dashboard" then Protected(storage, Show(DashboardPage))
    else if key == "/notes" then Protected(storage, Show(NotesPage))
    else if key == "/documents" then Protected(storage, Show(DocumentsPage))
    else if key == "/search" then Protected(storage, Show(SearchPage))
    else Redirect("/dashboard")
  }

  /** The table redirects only to /login and /dashboard. */
  lemma RouteRedirects(key: string, storage: map<string, string>)
    ensures var v := Route(key, storage); v.Redirect? ==> v.to == "/login" || v.to == "/dashboard"
  {
  }

  /** The element a location renders. */
  function Resolve(path: string, storage: map<string, string>): (v: View)
    ensures RouteKey(path) == "/" ==> v == Protected(storage, Redirect("/dashboard"))
    ensures RouteKey(path) == "/notes" ==> v == Protected(storage, Show(NotesPage))
    ensures RouteKey(path) !in Paths ==> v == Redirect("/dashboard")
  {
    Route(RouteKey(path), storage)
  }

  /** An extra trailing slash reaches the same route: "/notes/" shows what "/notes" shows. */
  lemma TrailingSlashSameRoute(path: string, storage: map<string, string>)
    requires |path| > 0 && path[0] == '/'
    ensures Resolve(path + "/", storage) == Resolve(path, storage)
  {
    TrailingSlashKey(path);
  }

  lemma TrailingSlashKey(path: string)
    requires |path| > 0 && path[0] == '/'
    ensures RouteKey(path + "/") == RouteKey(path)
  {
    var rest := path[1..];
    assert (path + "/")[1..] == rest + "/";
    assert (rest + "/")[..|rest|] == rest;
    assert TrimSlashes(rest + "/") == TrimSlashes(rest);
  }

  /** Trimming slashes and lower-casing commute, since only '/' lowers to '/'. */
  lemma {:induction false} TrimSlashesLower(s: string)
    ensures TrimSlashes(LowerStr(s)) == LowerStr(TrimSlashes(s))
    decreases |s|
  {
    if |s| > 0 && s[|s| - 1] == '/' {
      assert LowerStr(s)[..|s| - 1] == LowerStr(s[..|s| - 1]);
      TrimSlashesLower(s[..|s| - 1]);
    }
  }

  /** Paths that differ only in ASCII case reach the same route. */
  lemma RouteIgnoresCase(path: string, storage: map<string, string>)
    ensures Resolve(LowerStr(path), storage) == Resolve(path, storage)
  {
    if |path| > 0 && path[0] == '/' {
      LowerKey(path);
    } else {
      assert |LowerStr(path)| == |path|;
      assert |path| > 0 ==> LowerStr(path)[0] == Lower(path[0]) != '/';
      assert RouteKey(LowerStr(path)) == LowerStr(path) && RouteKey(path) == path;
      assert LowerStr(path) !in Paths && path !in Paths;
    }
  }

  lemma LowerKey(path: string)
    requires |path| > 0 && path[0] == '/'
    ensures RouteKey(LowerStr(path)) == RouteKey(path)
  {
    var lower := LowerStr(path);
    assert lower[0] == Lower(path[0]) == '/';
    assert lower[1..] == LowerStr(path[1..]);
    TrimSlashesLower(path[1..]);
    LowerIdempotent(TrimSlashes(path[1..]));
  }

  const Paths: set<string> := {"/login", "/register", "/", "/dashboard", "/notes", "/documents", "/search"}

  /** A slash followed by lower-case letters is its own route key. */
  lemma PlainKey(name: string)
    requires forall k :: 0 <= k < |name| ==> 'a' <= name[k] <= 'z'
    ensures RouteKey("/" + name) == "/" + name
  {
    assert ("/" + name)[1..] == name;
    assert name == [] || name[|name| - 1] != '/';
    assert TrimSlashes(name) == name;
    LowerWithoutUpper(name);
  }

  /** The two redirect targets are their own route keys. */
  lemma RedirectTargetKeys()
    ensures RouteKey("/login") == "/login" && RouteKey("/dashboard") == "/dashboard"
  {
    assert "/login" == "/" + "login";
    PlainKey("login");
    assert "/dashboard" == "/" + "dashboard";
    PlainKey("dashboard");
  }

  /** The pages behind ProtectedRoute. */
  predicate Private(p: Page) {
    p != LoginPage && p != RegisterPage
  }

  /**
   * Every path settles on a page after at most two redirects, and the page matches the stored
   * token: a private page when a token is stored, the login or register page when none is.
   */
  lemma RedirectsSettle(path: string, storage: map<string, string>)
    ensures var v := Resolve(path, storage);
      var w := if v.Redirect? then Resolve(v.to, storage) else v;
      var x := if w.Redirect? then Resolve(w.to, storage) else w;
      x.Show? && (Private(x.page) <==> Truthy(storage, TokenKey))
  {
    RouteSettles(RouteKey(path), storage);
  }

  /** The same on the table's keys. */
  lemma RouteSettles(key: string, storage: map<string, string>)
    ensures var v := Route(key, storage);
      var w := if v.Redirect? then Resolve(v.to, storage) else v;
      var x := if w.Redirect? then Resolve(w.to, storage) else w;
      x.Show? && (Private(x.page) <==> Truthy(storage, TokenKey))
  {
    var v := Route(key, storage);
    RouteRedirects(key, storage);
    if v.Redirect? {
      TargetSettles(v.to, storage);
    }
  }

  /** From either redirect target, at most one more redirect reaches a page. */
  lemma TargetSettles(to: string, storage: map<string, string>)
    requires to == "/login" || to == "/dashboard"
    ensures var w := Resolve(to, storage);
      var x := if w.Redirect? then Resolve(w.to, storage) else w;
      x.Show? && (Private(x.page) <==> Truthy(storage, TokenKey))
  {
    RedirectTargetKeys();
    var login := Public(storage, Show(LoginPage));
    assert Resolve("/login", storage) == login;
    if to == "/dashboard" {
      var dashboard := Protected(storage, Show(DashboardPage));
      assert Resolve(to, storage) == dashboard;
      assert dashboard.Redirect? ==> dashboard.to == "/login";
    }
  }


}
