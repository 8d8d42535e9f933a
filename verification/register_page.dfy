/**
 * The sign-up form: the same two steps as the sign-in form, with its own check (a password
 * of at least eight characters) and its own messages.
 */
module RegisterPage {
  import opened Wrappers
  import opened Text
  import opened Browser
  import AuthStore
  import Api
  import LoginPage

  /** The body of POST /auth/register. */
  datatype Registration = Registration(name: string, email: string, password: string)

  const PasswordTooShort := "Password must be at least 8 characters"
  const RegistrationFailed := "Registration failed"
  const Registered := "Account created! Welcome to your vault."
  const MinPasswordLength: nat := 8

  /** The check RegisterPage makes: the untrimmed password has at least eight characters. */
  predicate PasswordLongEnough(password: string) {
    |password| >= MinPasswordLength
  }

  /** What RegisterPage sends: the trimmed name and email and the untrimmed password. */
  function RegisterBody(name: string, email: string, password: string): (r: Registration)
    ensures IsStripped(r.name) && IsStripped(r.email) && r.password == password
  {
    Registration(Strip(name), Strip(email), password)
  }

  /** A password of blanks passes the sign-up check as long as it is long enough. */
  lemma BlankPasswordMayRegister(password: string)
    requires |password| == MinPasswordLength && forall k :: 0 <= k < |password| ==> password[k] == ' '
    ensures PasswordLongEnough(password) && Strip(password) == ""
  {
  }

  class RegisterForm {
    var name: string
    var email: string
    var password: string
    var loading: bool
    const store: AuthStore.Store

    constructor (store: AuthStore.Store)
      ensures this.store == store && name == "" && email == "" && password == "" && !loading
    {
      this.store := store;
      name := "";
      email := "";
      password := "";
      loading := false;
    }

    /** RegisterPage's handleSubmit up to the await. */
    method Submit() returns (request: Option<Registration>, toast: Option<string>)
      modifies this
      ensures !PasswordLongEnough(old(password)) ==>
        request == None && toast == Some(PasswordTooShort) && loading == old(loading)
      ensures PasswordLongEnough(old(password)) ==>
        request == Some(RegisterBody(old(name), old(email), old(password))) && toast == None && loading
      ensures email == old(email) && password == old(password) && name == old(name)
    {
      if !PasswordLongEnough(password) {
        return None, Some(PasswordTooShort);
      }
      loading := true;
      request := Some(RegisterBody(name, email, password));
      toast := None;
    }

    /** RegisterPage's handleSubmit after the await. */
    method Settle(outcome: Api.Outcome<LoginPage.Session>, serialise: AuthStore.User -> string) returns (toast: string)
      modifies this, store, store.window
      ensures store.window.dataTheme == old(store.window.dataTheme)
      ensures !loading && email == old(email) && password == old(password) && name == old(name)
      ensures outcome.Success? ==>
        && store.user == Some(outcome.data.user) && store.token == Some(outcome.data.accessToken)
        && store.window.storage == old(store.window.storage)[TokenKey := outcome.data.accessToken][UserKey := serialise(outcome.data.user)]
        && store.window.path == "/dashboard" && toast == Registered
      ensures outcome.Failure? ==>
        && store.user == old(store.user) && store.token == old(store.token)
        && toast == LoginPage.ErrorToast(outcome.err, RegistrationFailed)
      ensures outcome.Failure? && outcome.err.status == Some(401) ==>
        store.window.storage == ClearSession(old(store.window.storage)) && store.window.path == "/login"
      ensures outcome.Failure? && outcome.err.status != Some(401) ==>
        store.window.storage == old(store.window.storage) && store.window.path == old(store.window.path)
    {
      LoginPage.ApplyOutcome(store, outcome, serialise);
      toast := if outcome.Success? then Registered else LoginPage.ErrorToast(outcome.err, RegistrationFailed);
      loading := false;
    }
  }
}
