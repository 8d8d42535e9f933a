/**
 * The account routes: register, login and /auth/me over the users table. Password hashing,
 * the password check and token signing are parameters: `hash` is bcrypt.hashpw with its salt,
 * `verify(plain, hashed)` is bcrypt.checkpw and `sign(sub)` is create_access_token({"sub": sub}).
 */
module Auth {
  import opened Wrappers
  import opened Text
  import opened Sequences
  import opened Tables
  import opened Keyed
  import AuthDeps

  const EmailTaken := HttpError(400, "Email already registered")
  const InvalidCredentials := HttpError(401, "Invalid credentials")
  const TokenType := "bearer"

  const PublicKeys: set<string> := {"id", "name", "email"}

  /** The user object every route returns: {"id", "name", "email"}. */
  function PublicUser(id: nat, name: string, email: string): (d: Dict)
    ensures d.Keys == PublicKeys && "hashed_password" !in d
    ensures d["id"] == Int(id) && d["name"] == Str(name) && d["email"] == Str(email)
  {
    map["id" := Int(id), "name" := Str(name), "email" := Str(email)]
  }

  function PublicOf(u: UserRow): Dict {
    PublicUser(u.id, u.name, u.email)
  }

  /** {"access_token", "token_type": "bearer", "user"} */
  datatype TokenResponse = TokenResponse(accessToken: string, tokenType: string, user: Dict)

  /** The response for a signed-in user: a token whose subject is str(id), and the public user. */
  function SessionFor(u: UserRow, sign: string -> string): (r: TokenResponse)
    ensures r.accessToken == sign(NatToString(u.id)) && r.tokenType == TokenType
    ensures r.user.Keys == PublicKeys && r.user["id"] == Int(u.id)
  {
    TokenResponse(sign(NatToString(u.id)), TokenType, PublicOf(u))
  }

  function UserEmail(u: UserRow): string { u.email }

  /** SELECT ... FROM users WHERE email = ? */
  function FindByEmail(rows: seq<UserRow>, email: string): (r: Option<nat>)
    ensures r.Some? ==> r.value < |rows| && rows[r.value].email == email
    ensures r.None? <==> forall k :: 0 <= k < |rows| ==> rows[k].email != email
  {
    FindFirst(rows, (u: UserRow) => u.email == email)
  }

  /**
   * POST /auth/login over the rows: the same 401 for an unknown email and for a wrong
   * password, otherwise a token for the account with that email.
   */
  function Login(rows: seq<UserRow>, email: string, password: string,
                 verify: (string, string) -> bool, sign: string -> string): (r: Result<TokenResponse>)
    ensures r.Err? ==> r.error == InvalidCredentials
    ensures r.Err? <==> FindByEmail(rows, email).None? || !verify(password, rows[FindByEmail(rows, email).value].hashedPassword)
    ensures r.Ok? ==>
      exists k :: 0 <= k < |rows| && rows[k].email == email && verify(password, rows[k].hashedPassword) && r.value == SessionFor(rows[k], sign)
  {
    match FindByEmail(rows, email)
    case None => Err(InvalidCredentials)
    case Some(i) =>
      if !verify(password, rows[i].hashedPassword) then Err(InvalidCredentials)
      else Ok(SessionFor(rows[i], sign))
  }

  /** An unknown email and a wrong password cannot be told apart from the response. */
  lemma LoginFailuresAlike(rows: seq<UserRow>, unknown: string, known: string, wrong: string,
                           anyPassword: string, verify: (string, string) -> bool, sign: string -> string)
    requires forall k :: 0 <= k < |rows| ==> rows[k].email != unknown
    requires exists k :: 0 <= k < |rows| && rows[k].email == known
    requires forall k :: 0 <= k < |rows| && rows[k].email == known ==> !verify(wrong, rows[k].hashedPassword)
    ensures Login(rows, unknown, anyPassword, verify, sign) == Login(rows, known, wrong, verify, sign)
  {
    var found := FindByEmail(rows, known);
    assert found.Some?;
  }

  /** GET /auth/me: the public fields of the row get_current_user resolved. */
  function GetMe(rows: seq<UserRow>, token: string, decode: string -> Option<AuthDeps.Payload>): (r: Result<Dict>)
    ensures r.Ok? ==> r.value.Keys == PublicKeys && "hashed_password" !in r.value
    ensures r.Ok? <==> AuthDeps.GetCurrentUser(rows, token, decode).Ok?
    ensures r.Ok? ==> r.value == PublicOf(AuthDeps.GetCurrentUser(rows, token, decode).value)
    ensures r.Err? ==> r.error == AuthDeps.GetCurrentUser(rows, token, decode).error
  {
    match AuthDeps.GetCurrentUser(rows, token, decode)
    case Err(e) => Err(e)
    case Ok(u) => Ok(PublicOf(u))
  }

  class UsersTable {
    var rows: seq<UserRow>
    var nextId: nat

    /** Ids and emails are unique, and every id is below the next one the sequence hands out. */
    ghost predicate Valid()
      reads this
    {
      DistinctKeys(rows, UserId) && DistinctKeys(rows, UserEmail) && KeysBelow(rows, UserId, nextId) && nextId >= 1
    }

    constructor ()
      ensures Valid() && rows == [] && nextId == 1
    {
      rows := [];
      nextId := 1;
    }

    /**
     * POST /auth/register: 400 and no insert when the email is taken; otherwise a row with the
     * hash of the password (never the password itself) and a token for the new id.
     */
    method Register(name: string, email: string, password: string, hash: string -> string,
                    sign: string -> string, now: nat)
      returns (r: Result<TokenResponse>)
      requires Valid()
      modifies this
      ensures Valid()
      ensures FindByEmail(old(rows), email).Some? ==>
        r == Err(EmailTaken) && rows == old(rows) && nextId == old(nextId)
      ensures FindByEmail(old(rows), email).None? ==>
        && rows == old(rows) + [UserRow(old(nextId), name, email, hash(password), now)]
        && nextId == old(nextId) + 1
        && r == Ok(SessionFor(rows[|rows| - 1], sign))
    {
      var existing := FindByEmail(rows, email);
      if existing.Some? {
        return Err(EmailTaken);
      }
      var hashed := hash(password);
      var row := UserRow(nextId, name, email, hashed, now);
      AppendKeeps(rows, UserId, nextId, row);
      AppendEmail(rows, row);
      rows := rows + [row];
      nextId := nextId + 1;
      r := Ok(SessionFor(row, sign));
    }
  }

  /** Appending a row whose email is not yet taken keeps emails unique. */
  lemma AppendEmail(rows: seq<UserRow>, row: UserRow)
    requires DistinctKeys(rows, UserEmail)
    requires forall k :: 0 <= k < |rows| ==> rows[k].email != row.email
    ensures DistinctKeys(rows + [row], UserEmail)
  {
    assert forall k :: 0 <= k < |rows| ==> (rows + [row])[k] == rows[k];
  }

  /**
   * A fresh registration can log in with the same password (given that checkpw accepts the
   * password against its own hash), and the login yields the same session as the registration.
   */
  lemma RegisterThenLogin(rows: seq<UserRow>, row: UserRow, password: string, hash: string -> string,
                          verify: (string, string) -> bool, sign: string -> string)
    requires FindByEmail(rows, row.email).None?
    requires row.hashedPassword == hash(password) && verify(password, hash(password))
    ensures Login(rows + [row], row.email, password, verify, sign) == Ok(SessionFor(row, sign))
  {
    var all := rows + [row];
    assert forall k :: 0 <= k < |rows| ==> all[k] == rows[k];
    var found := FindByEmail(all, row.email);
    assert all[|rows|].email == row.email;
    assert found == Some(|rows|);
  }

  /**
   * The token a registration or login hands out resolves, through get_current_user, back to
   * the account it was issued for (given that decoding a signed token yields its subject).
   */
  lemma SessionTokenResolves(rows: seq<UserRow>, i: nat, sign: string -> string,
                             decode: string -> Option<AuthDeps.Payload>)
    requires i < |rows| && DistinctKeys(rows, UserId)
    requires decode(sign(NatToString(rows[i].id))).Some?
    requires "sub" in decode(sign(NatToString(rows[i].id))).value
    requires decode(sign(NatToString(rows[i].id))).value["sub"] == Str(NatToString(rows[i].id))
    ensures AuthDeps.GetCurrentUser(rows, SessionFor(rows[i], sign).accessToken, decode) == Ok(rows[i])
    ensures GetMe(rows, SessionFor(rows[i], sign).accessToken, decode) == Ok(SessionFor(rows[i], sign).user)
  {
    AuthDeps.IssuedTokenResolves(rows, i, sign(NatToString(rows[i].id)), decode);
  }
}
