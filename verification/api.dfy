/**
 * The client's HTTP layer: the request interceptor that attaches the bearer token, the
 * response interceptor that tears the session down on a 401, and the endpoint wrappers as a
 * mapping from each call to its verb, path and query parameters. The transport itself is not
 * modelled: a response arrives as an Outcome.
 */
module Api {
  import opened Wrappers
  import opened Text
  import opened Browser
  import AuthStore

  const BaseUrl := "/api"

  /** A request config on its way out; the interceptor adds to its headers. */
  class RequestConfig {
    var headers: map<string, string>

    constructor (headers: map<string, string>)
      ensures this.headers == headers
    {
      this.headers := headers;
    }
  }

  /** The request interceptor: Authorization is "Bearer <token>" when a token is stored. */
  method OnRequest(window: Window, config: RequestConfig) returns (r: RequestConfig)
    modifies config
    ensures r == config
    ensures Truthy(window.storage, TokenKey) ==>
      config.headers == old(config.headers)["Authorization" := "Bearer " + window.storage[TokenKey]]
    ensures !Truthy(window.storage, TokenKey) ==> config.headers == old(config.headers)
  {
    var token := GetOr(window.storage, TokenKey, "");
    if token != "" {
      config.headers := config.headers["Authorization" := "Bearer " + token];
    }
    r := config;
  }

  /** An axios error: the response status when a response arrived, and its detail. */
  datatype AxiosError = AxiosError(status: Option<int>, detail: Option<string>)

  /** What a call settles to: the response data, or the rejection. */
  datatype Outcome<T> = Success(data: T) | Failure(err: AxiosError)

  predicate Unauthorized<T>(o: Outcome<T>) {
    o.Failure? && o.err.status == Some(401)
  }

  /**
   * The response interceptor: successes pass through, every error is rejected again as the
   * same error, and a 401 first removes both session keys and sends the page to /login.
   */
  method OnResponse<T>(window: Window, outcome: Outcome<T>) returns (r: Outcome<T>)
    modifies window
    ensures r == outcome
    ensures Unauthorized(outcome) ==> window.storage == ClearSession(old(window.storage)) && window.path == "/login"
    ensures !Unauthorized(outcome) ==> window.storage == old(window.storage) && window.path == old(window.path)
    ensures window.dataTheme == old(window.dataTheme)
  {
    if Unauthorized(outcome) {
      window.storage := window.storage - {TokenKey};
      window.storage := window.storage - {UserKey};
      window.path := "/login";
    }
    r := outcome;
  }

  /**
   * A 401 clears storage but not the session store's fields: the store still holds its token
   * while isAuthenticated and the route guards, which read storage, see none.
   */
  method ExpiredSession<T>(store: AuthStore.Store, outcome: Outcome<T>) returns (r: Outcome<T>)
    requires Unauthorized(outcome)
    modifies store.window
    ensures r == outcome
    ensures store.token == old(store.token) && store.user == old(store.user)
    ensures !store.IsAuthenticated() && store.window.path == "/login"
  {
    r := OnResponse(store.window, outcome);
  }

  datatype Verb = Get | Post | Put | Delete

  /** Each wrapper of AuthAPI, NotesAPI, DocumentsAPI, SearchAPI and StatsAPI. */
  datatype Endpoint =
    | Register | Login | GetMe
    | NotesAll | NoteById(id: nat) | NoteCreate | NoteUpdate(id: nat) | NoteDelete(id: nat)
    | NoteRelated(id: nat) | NoteSummarize(id: nat)
    | DocumentsAll | DocumentById(id: nat) | DocumentUpload | DocumentDelete(id: nat)
    | DocumentRescan(id: nat) | DocumentDownload(id: nat)
    | Search(q: string, includeNotes: bool, includeDocs: bool, aiBoost: bool)
    | Stats

  /** The verb, the path under /api and the query parameters a call sends. */
  datatype Call = Call(verb: Verb, path: string, params: map<string, string>)

  function BoolParam(b: bool): string { if b then "true" else "false" }

  /** SearchAPI.search(query, include_notes = true, include_docs = true, ai_boost = false) */
  function SearchCall(q: string, includeNotes: bool := true, includeDocs: bool := true, aiBoost: bool := false): Endpoint {
    Search(q, includeNotes, includeDocs, aiBoost)
  }

  function Route(e: Endpoint): (c: Call)
    ensures !e.Search? ==> c.params == map[]
    ensures e.Search? ==> c.verb == Get && c.path == "/search/" && c.params.Keys == {"q", "include_notes", "include_docs", "ai_boost"}
    ensures |c.path| > 0 && c.path[0] == '/'
  {
    match e
    case Register => Call(Post, "/auth/register", map[])
    case Login => Call(Post, "/auth/login", map[])
    case GetMe => Call(Get, "/auth/me", map[])
    case NotesAll => Call(Get, "/notes/", map[])
    case NoteById(id) => Call(Get, "/notes/" + NatToString(id), map[])
    case NoteCreate => Call(Post, "/notes/", map[])
    case NoteUpdate(id) => Call(Put, "/notes/" + NatToString(id), map[])
    case NoteDelete(id) => Call(Delete, "/notes/" + NatToString(id), map[])
    case NoteRelated(id) => Call(Get, "/notes/" + NatToString(id) + "/related", map[])
    case NoteSummarize(id) => Call(Post, "/notes/" + NatToString(id) + "/summarize", map[])
    case DocumentsAll => Call(Get, "/documents/", map[])
    case DocumentById(id) => Call(Get, "/documents/" + NatToString(id), map[])
    case DocumentUpload => Call(Post, "/documents/upload", map[])
    case DocumentDelete(id) => Call(Delete, "/documents/" + NatToString(id), map[])
    case DocumentRescan(id) => Call(Post, "/documents/" + NatToString(id) + "/rescan", map[])
    case DocumentDownload(id) => Call(Get, "/documents/" + NatToString(id) + "/download", map[])
    case Search(q, n, d, b) =>
      Call(Get, "/search/", map["q" := q, "include_notes" := BoolParam(n), "include_docs" := BoolParam(d), "ai_boost" := BoolParam(b)])
    case Stats => Call(Get, "/dashboard/stats", map[])
  }

  /** A search with only a query sends both include flags on and the AI boost off. */
  lemma SearchDefaults(q: string)
    ensures var c := Route(SearchCall(q));
      c.params["q"] == q && c.params["include_notes"] == "true"
      && c.params["include_docs"] == "true" && c.params["ai_boost"] == "false"
  {
  }

  /** str(id) is one-to-one: the server's int() of it gives the id back. */
  lemma NatToStringInjective(a: nat, b: nat)
    requires NatToString(a) == NatToString(b)
    ensures a == b
  {
    ParseIntNatToString(a);
    ParseIntNatToString(b);
  }

  /** The path names the item: two calls of the same wrapper on different ids differ. */
  lemma IdPathsDiffer(a: nat, b: nat, suffix: string)
    requires a != b
    ensures "/notes/" + NatToString(a) + suffix != "/notes/" + NatToString(b) + suffix
    ensures "/documents/" + NatToString(a) + suffix != "/documents/" + NatToString(b) + suffix
  {
    IdSegment("/notes/", a, b, suffix);
    IdSegment("/documents/", a, b, suffix);
  }

  lemma IdSegment(prefix: string, a: nat, b: nat, suffix: string)
    requires a != b
    ensures prefix + NatToString(a) + suffix != prefix + NatToString(b) + suffix
  {
    var sa, sb := NatToString(a), NatToString(b);
    if prefix + sa + suffix == prefix + sb + suffix {
      assert |sa| == |sb|;
      assert sa == (prefix + sa + suffix)[|prefix|..|prefix| + |sa|];
      assert sb == (prefix + sb + suffix)[|prefix|..|prefix| + |sb|];
      NatToStringInjective(a, b);
    }
  }
}
