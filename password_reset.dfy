/** Password recovery: a single-use reset token whose SHA-256 digest is
    stored with an expiry, mailed in the clear, and redeemed once. */
module PasswordReset {
  import opened Common
  import opened Models
  import opened Store

  /** `settings.ACCESS_TOKEN_EXPIRE_MINUTES`, also the lifetime of a reset token. */
  const AccessTokenExpireMinutes: nat := 30

  const RecoveryMessage: string :=
    "If your email is registered, you will receive instructions to reset your password."
  const ResetDoneMessage: string := "Password updated successfully"

  /** `hashlib.sha256(token.encode()).hexdigest()` (the digest of FIPS 180-4, rendered in hex). */
  type TokenDigest = string -> string
  /** `get_password_hash`, the bcrypt hash of a password. */
  type PasswordHasher = string -> string

  /** The e-mail handed to the background task: recipient, address as typed, raw token. */
  datatype ResetMail = ResetMail(emailTo: string, email: string, token: string)

  /** What `recover_password` answers, stores and sends. */
  datatype Recovery = Recovery(message: string, stored: Option<ResetToken>, mail: Option<ResetMail>)

  function FindUserByEmail(users: seq<User>, email: string): (r: Option<nat>)
    ensures r.Some? ==> r.value < |users| && users[r.value].email == email
    ensures r.None? ==> forall i :: 0 <= i < |users| ==> users[i].email != email
  {
    FindFirst(users, (u: User) => u.email == email)
  }

  /** `recover_password` for a request at time `now` with the random token `rawToken`; the
      new row would get key `id`. The answer is the same message in every case. */
  function Recover(users: seq<User>, email: string, rawToken: string, digest: TokenDigest, now: int, id: nat)
    : (r: Recovery)
    ensures r.message == RecoveryMessage
    ensures r.stored.None? <==> FindUserByEmail(users, email).None?
    ensures r.mail.Some? <==> r.stored.Some?
    ensures r.stored.Some? ==>
      var u := users[FindUserByEmail(users, email).value];
      r.stored.value == ResetToken(id, u.id, digest(rawToken), now + AccessTokenExpireMinutes * 60, false, now) &&
      r.mail.value == ResetMail(u.email, email, rawToken)
  {
    match FindUserByEmail(users, email)
    case None => Recovery(RecoveryMessage, None, None)
    case Some(i) =>
      var token := ResetToken(id, users[i].id, digest(rawToken), now + AccessTokenExpireMinutes * 60, false, now);
      Recovery(RecoveryMessage, Some(token), Some(ResetMail(users[i].email, email, rawToken)))
  }

  /** Whether the response reveals anything: it does not depend on the address. */
  lemma RecoveryDoesNotEnumerate(users: seq<User>, e1: string, e2: string, raw: string,
                                 digest: TokenDigest, now: int, id: nat)
    ensures Recover(users, e1, raw, digest, now, id).message == Recover(users, e2, raw, digest, now, id).message
  {
  }

  /** `recover_password`: stores the new token row (if the address is registered) and returns
      the answer and the mail to send. */
  method RecoverPassword(db: Database, email: string, rawToken: string, digest: TokenDigest, now: int)
    returns (message: string, mail: Option<ResetMail>)
    requires db.Valid()
    modifies db
    ensures db.Valid()
    ensures db.users == old(db.users) && db.jobs == old(db.jobs) && db.applications == old(db.applications)
    ensures db.profiles == old(db.profiles) && db.notifications == old(db.notifications)
    ensures db.projects == old(db.projects)
    ensures var r := Recover(old(db.users), email, rawToken, digest, now, old(db.nextId));
      message == r.message && mail == r.mail &&
      db.resetTokens == old(db.resetTokens) + (if r.stored.Some? then [r.stored.value] else [])
  {
    var r := Recover(db.users, email, rawToken, digest, now, db.nextId);
    if r.stored.Some? {
      AppendFresh(db.resetTokens, ResetTokenId, db.nextId, r.stored.value);
      db.resetTokens := db.resetTokens + [r.stored.value];
      db.nextId := db.nextId + 1;
    }
    message, mail := r.message, r.mail;
  }

  /** A row accepted for a token with digest `h` at time `now`: same digest, unused, and
      expiring strictly after `now`. */
  predicate Redeemable(t: ResetToken, h: string, now: int)
  {
    t.tokenHash == h && !t.isUsed && t.expiresAt > now
  }

  /** A row redeemable now stays redeemable until the moment it expires, and never after. */
  lemma RedeemableUntilExpiry(t: ResetToken, h: string, now: int, later: int)
    requires Redeemable(t, h, now) && now <= later
    ensures Redeemable(t, h, later) <==> later < t.expiresAt
  {
  }

  function FindRedeemable(tokens: seq<ResetToken>, h: string, now: int): (r: Option<nat>)
    ensures r.Some? ==> r.value < |tokens| && Redeemable(tokens[r.value], h, now)
    ensures r.None? ==> forall i :: 0 <= i < |tokens| ==> !Redeemable(tokens[i], h, now)
  {
    FindFirst(tokens, (t: ResetToken) => Redeemable(t, h, now))
  }

  /** The outcome of `reset_password`: the answer and the two tables after it. */
  datatype Reset = Reset(response: Response<string>, users: seq<User>, tokens: seq<ResetToken>)

  /** `reset_password`: 400 without a redeemable row, 404 when its user is gone (nothing
      changes in either case); otherwise the user's hash becomes the hash of the new
      password and that row, and no other, is marked used. */
  function ResetWith(users: seq<User>, tokens: seq<ResetToken>, rawToken: string, newPassword: string,
                     digest: TokenDigest, hash: PasswordHasher, now: int): (r: Reset)
    ensures FindRedeemable(tokens, digest(rawToken), now).None? ==>
      r == Reset(Err(HttpError(400, "Invalid or expired token")), users, tokens)
    ensures (FindRedeemable(tokens, digest(rawToken), now).Some? &&
             FindUser(users, tokens[FindRedeemable(tokens, digest(rawToken), now).value].userId).None?) ==>
      r == Reset(Err(HttpError(404, "User not found")), users, tokens)
    ensures (FindRedeemable(tokens, digest(rawToken), now).Some? &&
             FindUser(users, tokens[FindRedeemable(tokens, digest(rawToken), now).value].userId).Some?) ==>
      r.response.Ok?
    ensures r.response.Ok? ==>
      var t := FindRedeemable(tokens, digest(rawToken), now).value;
      var u := FindUser(users, tokens[t].userId).value;
      r.response.value == ResetDoneMessage &&
      |r.users| == |users| && |r.tokens| == |tokens| &&
      r.users[u] == users[u].(hashedPassword := hash(newPassword)) &&
      r.tokens[t] == tokens[t].(isUsed := true) &&
      (forall j :: 0 <= j < |users| && j != u ==> r.users[j] == users[j]) &&
      (forall j :: 0 <= j < |tokens| && j != t ==> r.tokens[j] == tokens[j])
  {
    match FindRedeemable(tokens, digest(rawToken), now)
    case None => Reset(Err(HttpError(400, "Invalid or expired token")), users, tokens)
    case Some(t) =>
      match FindUser(users, tokens[t].userId)
      case None => Reset(Err(HttpError(404, "User not found")), users, tokens)
      case Some(u) =>
        Reset(Ok(ResetDoneMessage),
              users[u := users[u].(hashedPassword := hash(newPassword))],
              tokens[t := tokens[t].(isUsed := true)])
  }

  /** Single use: once a reset succeeded, the row it consumed is never accepted again, and
      when no other row carries the same digest, replaying the token is refused with 400. */
  lemma {:induction false} ReplayRefused(users: seq<User>, tokens: seq<ResetToken>, rawToken: string,
                                         p1: string, p2: string, digest: TokenDigest, hash: PasswordHasher,
                                         now: int, later: int)
    requires ResetWith(users, tokens, rawToken, p1, digest, hash, now).response.Ok?
    requires forall i, j :: 0 <= i < j < |tokens| ==> tokens[i].tokenHash != tokens[j].tokenHash
    ensures var r := ResetWith(users, tokens, rawToken, p1, digest, hash, now);
      !Redeemable(r.tokens[FindRedeemable(tokens, digest(rawToken), now).value], digest(rawToken), later) &&
      ResetWith(r.users, r.tokens, rawToken, p2, digest, hash, later).response ==
        Err(HttpError(400, "Invalid or expired token"))
  {
    var r := ResetWith(users, tokens, rawToken, p1, digest, hash, now);
    var t := FindRedeemable(tokens, digest(rawToken), now).value;
    forall j | 0 <= j < |r.tokens| ensures !Redeemable(r.tokens[j], digest(rawToken), later) {
      if j != t {
        assert r.tokens[j] == tokens[j];
        if j < t { assert tokens[j].tokenHash != tokens[t].tokenHash; }
        else { assert tokens[t].tokenHash != tokens[j].tokenHash; }
      }
    }
  }

  /** A token mailed by a recovery at `t0` resets the password of the address's owner at any
      time before `t0` plus the token lifetime, provided no older row has the same digest. */
  lemma {:induction false} RecoverThenReset(users: seq<User>, tokens: seq<ResetToken>, email: string,
                                            rawToken: string, newPassword: string, digest: TokenDigest,
                                            hash: PasswordHasher, t0: int, now: int, id: nat)
    requires DistinctIds(users, UserId)
    requires Recover(users, email, rawToken, digest, t0, id).stored.Some?
    requires forall i :: 0 <= i < |tokens| ==> tokens[i].tokenHash != digest(rawToken)
    requires now < t0 + AccessTokenExpireMinutes * 60
    ensures var rec := Recover(users, email, rawToken, digest, t0, id);
      var r := ResetWith(users, tokens + [rec.stored.value], rawToken, newPassword, digest, hash, now);
      var u := FindUserByEmail(users, email).value;
      r.response == Ok(ResetDoneMessage) && r.users[u].hashedPassword == hash(newPassword)
  {
    var rec := Recover(users, email, rawToken, digest, t0, id);
    var all := tokens + [rec.stored.value];
    var u := FindUserByEmail(users, email).value;
    assert Redeemable(all[|tokens|], digest(rawToken), now);
    assert FindRedeemable(all, digest(rawToken), now) == Some(|tokens|);
    FindUserUnique(users, users[u].id, u);
  }

  /** `reset_password` on the session: the tables become those of `ResetWith`. */
  method ResetPassword(db: Database, rawToken: string, newPassword: string,
                       digest: TokenDigest, hash: PasswordHasher, now: int)
    returns (response: Response<string>)
    requires db.Valid()
    modifies db
    ensures db.Valid()
    ensures var r := ResetWith(old(db.users), old(db.resetTokens), rawToken, newPassword, digest, hash, now);
      response == r.response && db.users == r.users && db.resetTokens == r.tokens
    ensures db.jobs == old(db.jobs) && db.applications == old(db.applications) && db.nextId == old(db.nextId)
    ensures db.profiles == old(db.profiles) && db.notifications == old(db.notifications)
    ensures db.projects == old(db.projects)
  {
    var tokenHash := digest(rawToken);
    var found := FindRedeemable(db.resetTokens, tokenHash, now);
    if found.None? {
      return Err(HttpError(400, "Invalid or expired token"));
    }
    var t := found.value;
    var owner := FindUser(db.users, db.resetTokens[t].userId);
    if owner.None? {
      return Err(HttpError(404, "User not found"));
    }
    var u := owner.value;
    ReplaceSameKey(db.users, UserId, db.nextId, u, db.users[u].(hashedPassword := hash(newPassword)));
    db.users := db.users[u := db.users[u].(hashedPassword := hash(newPassword))];
    ReplaceSameKey(db.resetTokens, ResetTokenId, db.nextId, t, db.resetTokens[t].(isUsed := true));
    db.resetTokens := db.resetTokens[t := db.resetTokens[t].(isUsed := true)];
    response := Ok(ResetDoneMessage);
  }
}
