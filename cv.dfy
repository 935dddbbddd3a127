/** Downloading a student's CV: an authorisation chain, then a signed URL
    from the storage service, whose reply comes in one of several shapes. */
module CvDownload {
  import opened Common
  import opened Models

  /** Lifetime of the signed URL, in seconds. */
  const SignedUrlLifetime: nat := 3600

  /** What `create_signed_url` gives back: it raises, or returns a dictionary, or an object
      that may carry a `signedURL` attribute. `repr` is the value's string form. */
  datatype SignReply =
    | Raised
    | Dict(entries: map<string, string>, repr: string)
    | Obj(signedUrl: Option<string>, repr: string)

  /** The storage client's signing call, for a stored name and a lifetime. */
  type Signer = (string, nat) -> SignReply

  /** The URL handed back for a reply that did not raise: the dictionary's `signedURL`
      entry, else the object's `signedURL` attribute, else the reply's string form. */
  function SignedUrl(reply: SignReply): (url: string)
    requires !reply.Raised?
    ensures reply.Dict? && "signedURL" in reply.entries ==> url == reply.entries["signedURL"]
    ensures reply.Dict? && "signedURL" !in reply.entries ==> url == reply.repr
    ensures reply.Obj? && reply.signedUrl.Some? ==> url == reply.signedUrl.value
    ensures reply.Obj? && reply.signedUrl.None? ==> url == reply.repr
  {
    match reply
    case Dict(entries, repr) => if "signedURL" in entries then entries["signedURL"] else repr
    case Obj(attr, repr) => if attr.Some? then attr.value else repr
  }

  /** `download_cv`: 403 unless the caller is an admin or the student asked about (checked
      before any lookup), 404 for an unknown user, 404 without a stored CV name, 404 when
      signing raises, else the URL signed for the stored name for one hour. */
  function DownloadCv(caller: User, users: seq<User>, studentId: nat, sign: Signer): (r: Response<string>)
    ensures caller.role != Admin && caller.id != studentId ==> r == Err(HttpError(403, "Not authorized"))
    ensures (caller.role == Admin || caller.id == studentId) && FindUser(users, studentId).None? ==>
      r == Err(HttpError(404, "Student not found"))
    ensures (caller.role == Admin || caller.id == studentId) && FindUser(users, studentId).Some? &&
            !HasCv(users[FindUser(users, studentId).value]) ==>
      r == Err(HttpError(404, "Student has not uploaded a CV"))
    ensures r.Ok? <==>
      (caller.role == Admin || caller.id == studentId) && FindUser(users, studentId).Some? &&
      HasCv(users[FindUser(users, studentId).value]) &&
      !sign(users[FindUser(users, studentId).value].cvFilename.value, SignedUrlLifetime).Raised?
    ensures r.Ok? ==>
      r.value == SignedUrl(sign(users[FindUser(users, studentId).value].cvFilename.value, SignedUrlLifetime))
    ensures (caller.role == Admin || caller.id == studentId) && FindUser(users, studentId).Some? &&
            HasCv(users[FindUser(users, studentId).value]) &&
            sign(users[FindUser(users, studentId).value].cvFilename.value, SignedUrlLifetime).Raised? ==>
      r == Err(HttpError(404, "CV file not found in cloud storage"))
  {
    if caller.role != Admin && caller.id != studentId then Err(HttpError(403, "Not authorized"))
    else match FindUser(users, studentId)
      case None => Err(HttpError(404, "Student not found"))
      case Some(i) =>
        if !HasCv(users[i]) then Err(HttpError(404, "Student has not uploaded a CV"))
        else
          var reply := sign(users[i].cvFilename.value, SignedUrlLifetime);
          if reply.Raised? then Err(HttpError(404, "CV file not found in cloud storage"))
          else Ok(SignedUrl(reply))
  }

  /** A student asking for someone else's CV learns nothing: the answer is the same 403
      whatever the table holds and whatever the storage would reply. */
  lemma ForeignCvRefusedBlindly(caller: User, u1: seq<User>, u2: seq<User>, studentId: nat, s1: Signer, s2: Signer)
    requires caller.role != Admin && caller.id != studentId
    ensures DownloadCv(caller, u1, studentId, s1) == DownloadCv(caller, u2, studentId, s2)
  {
  }

  /** Under distinct ids, a student who uploaded a CV always gets a URL for their own file
      when the storage signs it. */
  lemma OwnCvDownloadable(caller: User, users: seq<User>, i: nat, sign: Signer)
    requires DistinctIds(users, UserId)
    requires i < |users| && users[i] == caller && HasCv(caller)
    requires !sign(caller.cvFilename.value, SignedUrlLifetime).Raised?
    ensures DownloadCv(caller, users, caller.id, sign) == Ok(SignedUrl(sign(caller.cvFilename.value, SignedUrlLifetime)))
  {
    FindUserUnique(users, caller.id, i);
  }
}
