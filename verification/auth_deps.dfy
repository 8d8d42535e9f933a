/**
 * get_current_user: the dependency every protected route runs. It decodes the bearer token,
 * reads int(payload["sub"]) and fetches that user's row. The JWT signature and expiry check
 * is the parameter `decode`, which answers None for a token it rejects.
 */
module AuthDeps {
  import opened Wrappers
  import opened Text
  import opened Sequences
  import opened Tables
  import opened Keyed

  const InvalidToken := HttpError(401, "Invalid or expired token")
  const UserNotFound := HttpError(404, "User not found")

  /** A decoded token payload: its JSON claims. */
  type Payload = map<string, Value>

  /**
   * int(payload.get("sub")): a string goes through int(str), an integer is itself, a boolean is
   * 0 or 1; a missing claim (None), null or a list raises TypeError, modelled as None.
   */
  function SubjectId(p: Payload): (r: Option<int>)
    ensures "sub" !in p ==> r.None?
    ensures "sub" in p && p["sub"].Str? ==> r == ParseInt(p["sub"].s)
    ensures "sub" in p && (p["sub"].Null? || p["sub"].List?) ==> r.None?
    ensures "sub" in p && p["sub"].Int? ==> r == Some(p["sub"].i)
    ensures "sub" in p && p["sub"].Bool? ==> r == Some(if p["sub"].b then 1 else 0)
  {
    if "sub" !in p then None
    else
      match p["sub"]
      case Str(s) => ParseInt(s)
      case Int(i) => Some(i)
      case Bool(b) => Some(if b then 1 else 0)
      case List(_) => None
      case Null => None
  }

  /** SELECT * FROM users WHERE id = ? */
  function FindUser(rows: seq<UserRow>, id: int): (r: Option<nat>)
    ensures r.Some? ==> r.value < |rows| && rows[r.value].id == id
    ensures r.None? <==> forall k :: 0 <= k < |rows| ==> rows[k].id != id
  {
    FindFirst(rows, (u: UserRow) => u.id == id)
  }

  /**
   * The caller's users row: 401 when the token does not decode or its subject is not an
   * integer, 404 when no user has that id.
   */
  function GetCurrentUser(rows: seq<UserRow>, token: string, decode: string -> Option<Payload>): (r: Result<UserRow>)
    ensures r == Err(InvalidToken) <==> decode(token).None? || SubjectId(decode(token).value).None?
    ensures r == Err(UserNotFound) <==>
      && decode(token).Some? && SubjectId(decode(token).value).Some?
      && forall k :: 0 <= k < |rows| ==> rows[k].id != SubjectId(decode(token).value).value
    ensures r.Ok? ==>
      && decode(token).Some? && SubjectId(decode(token).value).Some?
      && r.value in rows && r.value.id == SubjectId(decode(token).value).value
  {
    match decode(token)
    case None => Err(InvalidToken)
    case Some(payload) =>
      match SubjectId(payload)
      case None => Err(InvalidToken)
      case Some(id) =>
        match FindUser(rows, id)
        case None => Err(UserNotFound)
        case Some(i) => Ok(rows[i])
  }

  /**
   * A token issued for a user (its subject is str(id)) resolves to that user's row, as long as
   * the row is still in the table and ids are unique.
   */
  lemma IssuedTokenResolves(rows: seq<UserRow>, i: nat, token: string, decode: string -> Option<Payload>)
    requires i < |rows| && DistinctKeys(rows, UserId)
    requires decode(token).Some? && "sub" in decode(token).value
    requires decode(token).value["sub"] == Str(NatToString(rows[i].id))
    ensures GetCurrentUser(rows, token, decode) == Ok(rows[i])
  {
    ParseIntNatToString(rows[i].id);
    var found := FindUser(rows, rows[i].id);
    assert found.Some?;
    assert UserId(rows[found.value]) == UserId(rows[i]);
    assert found.value == i;
  }

  /** Once the user's row is gone, the same token answers 404 rather than 401. */
  lemma DeletedUserIsNotFound(rows: seq<UserRow>, id: nat, token: string, decode: string -> Option<Payload>)
    requires forall k :: 0 <= k < |rows| ==> rows[k].id != id
    requires decode(token).Some? && "sub" in decode(token).value
    requires decode(token).value["sub"] == Str(NatToString(id))
    ensures GetCurrentUser(rows, token, decode) == Err(UserNotFound)
  {
    ParseIntNatToString(id);
  }
}
