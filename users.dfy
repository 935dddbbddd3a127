/** The endpoints a user calls on their own row: upload a CV, change the
    password, edit name and e-mail. Each changes the caller's row in place. */
module Users {
  import opened Common
  import opened Models
  import opened Store

  /** `verify_password(plain, hashed)`, the bcrypt check. */
  type PasswordVerifier = (string, string) -> bool
  /** `get_password_hash`. */
  type PasswordHasher = string -> string

  /** The one file name a user's CV is stored under (`f"user_{id}_cv.pdf"`). */
  function CvFileName(userId: nat): (name: string)
    ensures |name| > |"user_"| + |"_cv.pdf"|
    ensures name[..5] == "user_" && name[|name| - 7..] == "_cv.pdf"
  {
    "user_" + NatToString(userId) + "_cv.pdf"
  }

  /** Two users never share a CV file: the name determines the id. */
  lemma {:induction false} CvFileNamesDistinct(a: nat, b: nat)
    requires CvFileName(a) == CvFileName(b)
    ensures a == b
  {
    var na, nb := CvFileName(a), CvFileName(b);
    assert na[5..|na| - 7] == NatToString(a);
    assert nb[5..|nb| - 7] == NatToString(b);
    NatToStringInjective(a, b);
  }

  /** `upload_cv` on the caller's row: 400 unless the content type is a PDF, 500 when the
      file could not be written (`saved` is the outcome of the write), else the row with
      its CV name set. */
  function UploadCvResult(caller: User, contentType: string, saved: bool): (r: Response<User>)
    ensures contentType != "application/pdf" ==> r == Err(HttpError(400, "Only PDF files are allowed"))
    ensures contentType == "application/pdf" && !saved ==> r == Err(HttpError(500, "Could not save file"))
    ensures r.Ok? <==> contentType == "application/pdf" && saved
    ensures r.Ok? ==> r.value == caller.(cvFilename := Some(CvFileName(caller.id))) && HasCv(r.value)
  {
    if contentType != "application/pdf" then Err(HttpError(400, "Only PDF files are allowed"))
    else if !saved then Err(HttpError(500, "Could not save file"))
    else Ok(caller.(cvFilename := Some(CvFileName(caller.id))))
  }

  /** Uploading again stores the same name: the new file replaces the old one. */
  lemma ReuploadSameName(caller: User)
    requires UploadCvResult(caller, "application/pdf", true).Ok?
    ensures var once := UploadCvResult(caller, "application/pdf", true).value;
      UploadCvResult(once, "application/pdf", true) == Ok(once)
  {
  }

  /** `change_password`: 400 when the current password does not match the stored hash,
      else the row with the hash of the new password. */
  function ChangePasswordResult(caller: User, body: PasswordChange, verify: PasswordVerifier, hash: PasswordHasher)
    : (r: Response<User>)
    ensures r.Err? <==> !verify(body.currentPassword, caller.hashedPassword)
    ensures r.Err? ==> r.error == HttpError(400, "Incorrect password")
    ensures r.Ok? ==> r.value == caller.(hashedPassword := hash(body.newPassword))
  {
    if !verify(body.currentPassword, caller.hashedPassword) then Err(HttpError(400, "Incorrect password"))
    else Ok(caller.(hashedPassword := hash(body.newPassword)))
  }

  /** After a change, the new password is the one accepted as current, and (when the hash
      of the new password does not verify the old one) the old password is refused. */
  lemma ChangeThenOldRefused(caller: User, body: PasswordChange, next: string,
                             verify: PasswordVerifier, hash: PasswordHasher)
    requires ChangePasswordResult(caller, body, verify, hash).Ok?
    requires verify(body.newPassword, hash(body.newPassword))
    requires !verify(body.currentPassword, hash(body.newPassword))
    ensures var changed := ChangePasswordResult(caller, body, verify, hash).value;
      ChangePasswordResult(changed, PasswordChange(body.newPassword, next), verify, hash).Ok? &&
      ChangePasswordResult(changed, PasswordChange(body.currentPassword, next), verify, hash) ==
        Err(HttpError(400, "Incorrect password"))
  {
  }

  /** `update_user_me`: the name and e-mail given replace the stored ones. The endpoint does
      not look for a clash, but `users.email` is UNIQUE, so an e-mail held by another row
      makes the commit fail: 500, and the row stays as it was. */
  function UpdateMeResult(users: seq<User>, caller: User, body: UserUpdate): (r: Response<User>)
    ensures r.Err? <==>
      (body.email.Some? &&
       exists j :: 0 <= j < |users| && users[j].id != caller.id && users[j].email == body.email.value)
    ensures r.Err? ==> r.error == HttpError(500, "Internal Server Error")
    ensures r.Ok? ==> r.value.id == caller.id && r.value.hashedPassword == caller.hashedPassword
    ensures r.Ok? ==> r.value.fullName == (if body.fullName.Some? then body.fullName else caller.fullName)
    ensures r.Ok? ==> r.value.email == (if body.email.Some? then body.email.value else caller.email)
    ensures r.Ok? ==>
      r.value.role == caller.role && r.value.cvFilename == caller.cvFilename && r.value.isActive == caller.isActive
  {
    var updated := caller.(fullName := if body.fullName.Some? then body.fullName else caller.fullName,
                           email := if body.email.Some? then body.email.value else caller.email);
    if body.email.Some? && Any(users, (u: User) => u.id != caller.id && u.email == body.email.value) then
      Err(HttpError(500, "Internal Server Error"))
    else Ok(updated)
  }

  /** An update that goes through keeps every e-mail unique. */
  lemma UpdateMeKeepsEmailsUnique(users: seq<User>, i: nat, body: UserUpdate)
    requires UniqueEmails(users) && DistinctIds(users, UserId)
    requires i < |users| && UpdateMeResult(users, users[i], body).Ok?
    ensures UniqueEmails(users[i := UpdateMeResult(users, users[i], body).value])
  {
    var u := UpdateMeResult(users, users[i], body).value;
    forall j | 0 <= j < |users| && j != i ensures users[j].email != u.email {
      if body.email.Some? {
        if j < i { assert UserId(users[j]) != UserId(users[i]); }
        else { assert UserId(users[i]) != UserId(users[j]); }
        assert users[j].id != users[i].id;
      }
    }
  }

  /** Stores `row` over the caller's row (same id). */
  method StoreCallerRow(db: Database, caller: User, row: User)
    requires db.Valid() && caller in db.users && row.id == caller.id
    requires UniqueEmails(db.users[FindUser(db.users, caller.id).value := row])
    modifies db
    ensures db.Valid()
    ensures db.users == old(db.users)[FindUser(old(db.users), caller.id).value := row]
    ensures db.jobs == old(db.jobs) && db.applications == old(db.applications) && db.nextId == old(db.nextId)
    ensures db.resetTokens == old(db.resetTokens) && db.profiles == old(db.profiles)
    ensures db.notifications == old(db.notifications) && db.projects == old(db.projects)
  {
    var i := FindUser(db.users, caller.id).value;
    ReplaceSameKey(db.users, UserId, db.nextId, i, row);
    db.users := db.users[i := row];
  }

  /** A change to the caller's row that keeps the e-mail keeps the e-mails unique. */
  lemma SameEmailKeepsUnique(users: seq<User>, i: nat, row: User)
    requires UniqueEmails(users) && i < |users| && row.email == users[i].email
    ensures UniqueEmails(users[i := row])
  {
  }

  /** `upload_cv` on the session: on success the caller's row gets the CV name. */
  method UploadCv(db: Database, caller: User, contentType: string, saved: bool) returns (r: Response<User>)
    requires db.Valid() && caller in db.users
    modifies db
    ensures db.Valid()
    ensures r == UploadCvResult(caller, contentType, saved)
    ensures r.Err? ==> db.users == old(db.users)
    ensures r.Ok? ==> db.users == old(db.users)[FindUser(old(db.users), caller.id).value := r.value]
    ensures db.jobs == old(db.jobs) && db.applications == old(db.applications) && db.nextId == old(db.nextId)
    ensures db.resetTokens == old(db.resetTokens) && db.profiles == old(db.profiles)
    ensures db.notifications == old(db.notifications) && db.projects == old(db.projects)
  {
    r := UploadCvResult(caller, contentType, saved);
    if r.Ok? {
      var i := FindUser(db.users, caller.id).value;
      FindUserUnique(db.users, caller.id, i);
      SameEmailKeepsUnique(db.users, i, r.value);
      StoreCallerRow(db, caller, r.value);
    }
  }

  /** `change_password` on the session. */
  method ChangePassword(db: Database, caller: User, body: PasswordChange,
                        verify: PasswordVerifier, hash: PasswordHasher) returns (r: Response<string>)
    requires db.Valid() && caller in db.users
    modifies db
    ensures db.Valid()
    ensures var result := ChangePasswordResult(caller, body, verify, hash);
      (result.Err? ==> r == Err(result.error) && db.users == old(db.users)) &&
      (result.Ok? ==>
         r == Ok("Password updated successfully") &&
         db.users == old(db.users)[FindUser(old(db.users), caller.id).value := result.value])
    ensures db.jobs == old(db.jobs) && db.applications == old(db.applications) && db.nextId == old(db.nextId)
    ensures db.resetTokens == old(db.resetTokens) && db.profiles == old(db.profiles)
    ensures db.notifications == old(db.notifications) && db.projects == old(db.projects)
  {
    var result := ChangePasswordResult(caller, body, verify, hash);
    if result.Err? {
      return Err(result.error);
    }
    var i := FindUser(db.users, caller.id).value;
    FindUserUnique(db.users, caller.id, i);
    SameEmailKeepsUnique(db.users, i, result.value);
    StoreCallerRow(db, caller, result.value);
    r := Ok("Password updated successfully");
  }

  /** `update_user_me` on the session. */
  method UpdateMe(db: Database, caller: User, body: UserUpdate) returns (r: Response<User>)
    requires db.Valid() && caller in db.users
    modifies db
    ensures db.Valid()
    ensures r == UpdateMeResult(old(db.users), caller, body)
    ensures r.Err? ==> db.users == old(db.users)
    ensures r.Ok? ==> db.users == old(db.users)[FindUser(old(db.users), caller.id).value := r.value]
    ensures db.jobs == old(db.jobs) && db.applications == old(db.applications) && db.nextId == old(db.nextId)
    ensures db.resetTokens == old(db.resetTokens) && db.profiles == old(db.profiles)
    ensures db.notifications == old(db.notifications) && db.projects == old(db.projects)
  {
    r := UpdateMeResult(db.users, caller, body);
    if r.Ok? {
      var i := FindUser(db.users, caller.id).value;
      FindUserUnique(db.users, caller.id, i);
      UpdateMeKeepsEmailsUnique(db.users, i, body);
      StoreCallerRow(db, caller, r.value);
    }
  }
}
