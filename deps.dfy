/** The authentication dependencies every protected endpoint runs first:
    decode the bearer token, load the user it names, refuse inactive users. */
module Deps {
  import opened Common
  import opened Models

  /** What decoding and validating a bearer token yields: `None` when the JWT library or
      the payload schema rejects it, else the payload's `sub` claim (itself optional). */
  type TokenDecoder = string -> Option<Option<int>>

  /** `get_current_user`: 403 on a bad token, 404 when `sub` names no user, else that user. */
  function GetCurrentUser(users: seq<User>, token: string, decode: TokenDecoder): (r: Response<User>)
    ensures decode(token).None? <==> r.Err? && r.error.status == 403
    ensures r.Err? && r.error.status == 404 <==>
      decode(token).Some? &&
      (decode(token).value.None? || forall i :: 0 <= i < |users| ==> users[i].id != decode(token).value.value)
    ensures r.Ok? ==> r.value in users && decode(token) == Some(Some(r.value.id))
  {
    match decode(token)
    case None => Err(HttpError(403, "Could not validate credentials"))
    case Some(sub) =>
      if sub.None? || sub.value < 0 then Err(HttpError(404, "User not found"))
      else
        match FindUser(users, sub.value)
        case None => Err(HttpError(404, "User not found"))
        case Some(i) => Ok(users[i])
  }

  /** `get_current_active_user`: the checks above, then 400 for an inactive user. */
  function GetCurrentActiveUser(users: seq<User>, token: string, decode: TokenDecoder): (r: Response<User>)
    ensures GetCurrentUser(users, token, decode).Err? ==> r == GetCurrentUser(users, token, decode)
    ensures r.Err? && r.error.status == 400 <==>
      GetCurrentUser(users, token, decode).Ok? && !GetCurrentUser(users, token, decode).value.isActive
    ensures r.Ok? ==> r == GetCurrentUser(users, token, decode) && r.value.isActive
  {
    match GetCurrentUser(users, token, decode)
    case Err(e) => Err(e)
    case Ok(user) => if !user.isActive then Err(HttpError(400, "Inactive user")) else Ok(user)
  }

  /** A request gets through exactly when its token decodes to the id of an active user,
      and it then acts as that user's row, unchanged. */
  lemma ActiveUserIff(users: seq<User>, token: string, decode: TokenDecoder)
    requires DistinctIds(users, UserId)
    ensures GetCurrentActiveUser(users, token, decode).Ok? <==>
      exists i :: 0 <= i < |users| && decode(token) == Some(Some(users[i].id)) && users[i].isActive
    ensures forall i :: 0 <= i < |users| && decode(token) == Some(Some(users[i].id)) ==>
      (GetCurrentActiveUser(users, token, decode) == if users[i].isActive then Ok(users[i])
       else Err(HttpError(400, "Inactive user")))
  {
    forall i | 0 <= i < |users| && decode(token) == Some(Some(users[i].id))
      ensures GetCurrentUser(users, token, decode) == Ok(users[i])
    {
      FindUserUnique(users, users[i].id, i);
    }
    var r := GetCurrentActiveUser(users, token, decode);
    if r.Ok? {
      var i :| 0 <= i < |users| && users[i] == r.value;
      assert decode(token) == Some(Some(users[i].id));
    }
  }
}
