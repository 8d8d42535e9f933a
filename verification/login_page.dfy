/**
 * The sign-in form. handleSubmit runs in two steps around its await: Submit checks the fields
 * and turns loading on, and Settle takes the server's answer (after the response interceptor
 * has seen it), updates the session on success, and turns loading off.
 */
module LoginPage {
  import opened Wrappers
  import opened Text
  import opened Browser
  import AuthStore
  import Api

  /** The body of POST /auth/login. */
  datatype Credentials = Credentials(email: string, password: string)

  /** The fields of the token response the forms read. */
  datatype Session = Session(accessToken: string, user: AuthStore.User)

  const FillAllFields := "Please fill in all fields"
  const LoginFailed := "Login failed. Please check your credentials."

  /** err.response?.data?.detail || fallback */
  function ErrorToast(err: Api.AxiosError, fallback: string): (t: string)
    ensures err.detail.Some? && err.detail.value != "" ==> t == err.detail.value
    ensures err.detail.None? || err.detail.value == "" ==> t == fallback
  {
    if err.detail.Some? && err.detail.value != "" then err.detail.value else fallback
  }

  function Welcome(u: AuthStore.User): string {
    "Welcome back, " + u.name + "!"
  }

  /** The check LoginPage makes before sending: neither field is blank after trimming. */
  predicate LoginFilled(email: string, password: string) {
    Strip(email) != "" && Strip(password) != ""
  }

  /** What LoginPage sends: the trimmed email and the password exactly as typed. */
  function LoginBody(email: string, password: string): (c: Credentials)
    requires LoginFilled(email, password)
    ensures c.email != "" && IsStripped(c.email) && c.password == password
  {
    Credentials(Strip(email), password)
  }

  /**
   * The session after a settled call: on success setAuth(data.user, data.access_token) and a
   * move to /dashboard; on failure the fields stay as they were.
   */
  method ApplyOutcome(store: AuthStore.Store, outcome: Api.Outcome<Session>, serialise: AuthStore.User -> string)
    modifies store, store.window
    ensures store.window.dataTheme == old(store.window.dataTheme)
    ensures outcome.Success? ==>
      && store.user == Some(outcome.data.user) && store.token == Some(outcome.data.accessToken)
      && store.window.storage == old(store.window.storage)[TokenKey := outcome.data.accessToken][UserKey := serialise(outcome.data.user)]
      && store.window.path == "/dashboard"
    ensures outcome.Failure? && outcome.err.status == Some(401) ==>
      && store.user == old(store.user) && store.token == old(store.token)
      && store.window.storage == ClearSession(old(store.window.storage)) && store.window.path == "/login"
    ensures outcome.Failure? && outcome.err.status != Some(401) ==>
      && store.user == old(store.user) && store.token == old(store.token)
      && store.window.storage == old(store.window.storage) && store.window.path == old(store.window.path)
  {
    var settled := Api.OnResponse(store.window, outcome);
    if settled.Success? {
      store.SetAuth(settled.data.user, settled.data.accessToken, serialise);
      store.window.path := "/dashboard";
    }
  }

  class LoginForm {
    var email: string
    var password: string
    var loading: bool
    const store: AuthStore.Store

    constructor (store: AuthStore.Store)
      ensures this.store == store && email == "" && password == "" && !loading
    {
      this.store := store;
      email := "";
      password := "";
      loading := false;
    }

    /** LoginPage's handleSubmit up to the await: the request to send, or the toast instead. */
    method Submit() returns (request: Option<Credentials>, toast: Option<string>)
      modifies this
      ensures !LoginFilled(old(email), old(password)) ==>
        request == None && toast == Some(FillAllFields) && loading == old(loading)
      ensures LoginFilled(old(email), old(password)) ==>
        request == Some(LoginBody(old(email), old(password))) && toast == None && loading
      ensures email == old(email) && password == old(password)
    {
      if !LoginFilled(email, password) {
        return None, Some(FillAllFields);
      }
      loading := true;
      request := Some(LoginBody(email, password));
      toast := None;
    }

    /** LoginPage's handleSubmit after the await: the session on success, a toast, loading off. */
    method Settle(outcome: Api.Outcome<Session>, serialise: AuthStore.User -> string) returns (toast: string)
      modifies this, store, store.window
      ensures store.window.dataTheme == old(store.window.dataTheme)
      ensures !loading && email == old(email) && password == old(password)
      ensures outcome.Success? ==>
        && store.user == Some(outcome.data.user) && store.token == Some(outcome.data.accessToken)
        && store.window.storage == old(store.window.storage)[TokenKey := outcome.data.accessToken][UserKey := serialise(outcome.data.user)]
        && store.window.path == "/dashboard" && toast == Welcome(outcome.data.user)
      ensures outcome.Failure? ==>
        && store.user == old(store.user) && store.token == old(store.token)
        && toast == ErrorToast(outcome.err, LoginFailed)
      ensures outcome.Failure? && outcome.err.status == Some(401) ==>
        store.window.storage == ClearSession(old(store.window.storage)) && store.window.path == "/login"
      ensures outcome.Failure? && outcome.err.status != Some(401) ==>
        store.window.storage == old(store.window.storage) && store.window.path == old(store.window.path)
    {
      ApplyOutcome(store, outcome, serialise);
      toast := if outcome.Success? then Welcome(outcome.data.user) else ErrorToast(outcome.err, LoginFailed);
      loading := false;
    }
  }
}
