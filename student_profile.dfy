/** The student profile endpoints: one profile per student, holding its URLs,
    portfolio projects and skills; partial update for the URLs, whole-list
    replacement for projects and skills. */
module StudentProfiles {
  import opened Common
  import opened Models
  import opened Store

  /** `read_user_profile_me`: the caller's profile, or 404. The role test at the top of the
      endpoint has an empty body, so the role plays no part. */
  function ReadProfileMe(caller: User, profiles: seq<StudentProfile>): (r: Response<StudentProfile>)
    ensures r.Err? <==> forall i :: 0 <= i < |profiles| ==> profiles[i].userId != caller.id
    ensures r.Err? ==> r.error == HttpError(404, "Profile not found. Please create one.")
    ensures r.Ok? ==> r.value in profiles && r.value.userId == caller.id
  {
    match FindProfile(profiles, caller.id)
    case None => Err(HttpError(404, "Profile not found. Please create one."))
    case Some(i) => Ok(profiles[i])
  }

  /** Students, mentors and admins get the same answer from GET /me. */
  lemma ReadProfileMeIgnoresRole(caller: User, role: UserRole, profiles: seq<StudentProfile>)
    ensures ReadProfileMe(caller.(role := role), profiles) == ReadProfileMe(caller, profiles)
  {
  }

  /** The refusals of `create_user_profile`, in order: not a student, profile already there. */
  function CreateRefusal(caller: User, profiles: seq<StudentProfile>): (r: Option<HttpError>)
    ensures caller.role != Student ==> r == Some(HttpError(400, "Only students can create a student profile"))
    ensures caller.role == Student && FindProfile(profiles, caller.id).Some? ==>
      r == Some(HttpError(400, "Profile already exists"))
    ensures r.None? <==> caller.role == Student && forall i :: 0 <= i < |profiles| ==> profiles[i].userId != caller.id
  {
    if caller.role != Student then Some(HttpError(400, "Only students can create a student profile"))
    else if FindProfile(profiles, caller.id).Some? then Some(HttpError(400, "Profile already exists"))
    else None
  }

  /** The row `create_user_profile` stores: exactly the given URLs, projects and skills,
      under the caller's id. */
  function NewProfile(id: nat, userId: nat, body: ProfileCreate): (p: StudentProfile)
    ensures p.id == id && p.userId == userId
    ensures p.githubUrl == body.githubUrl && p.linkedinUrl == body.linkedinUrl && p.portfolioUrl == body.portfolioUrl
    ensures p.projects == body.projects && p.skills == body.skills
  {
    StudentProfile(id, userId, body.githubUrl, body.linkedinUrl, body.portfolioUrl, body.projects, body.skills)
  }

  /** A successful create leaves at most one profile per user, and a second create by the
      same student is refused. */
  lemma CreateKeepsOneProfile(caller: User, profiles: seq<StudentProfile>, p: StudentProfile)
    requires OneProfilePerUser(profiles)
    requires CreateRefusal(caller, profiles).None? && p.userId == caller.id
    ensures OneProfilePerUser(profiles + [p])
    ensures CreateRefusal(caller, profiles + [p]) == Some(HttpError(400, "Profile already exists"))
  {
    assert (profiles + [p])[|profiles|] == p;
  }

  /** `create_user_profile`: on a refusal nothing is stored; otherwise the new profile is
      appended, its projects and skills copied one by one from the body. */
  method CreateProfile(db: Database, caller: User, body: ProfileCreate) returns (r: Response<StudentProfile>)
    requires db.Valid()
    modifies db
    ensures db.Valid()
    ensures db.users == old(db.users) && db.jobs == old(db.jobs) && db.applications == old(db.applications)
    ensures db.resetTokens == old(db.resetTokens) && db.notifications == old(db.notifications)
    ensures db.projects == old(db.projects)
    ensures CreateRefusal(caller, old(db.profiles)).Some? ==>
      r == Err(CreateRefusal(caller, old(db.profiles)).value) &&
      db.profiles == old(db.profiles) && db.nextId == old(db.nextId)
    ensures CreateRefusal(caller, old(db.profiles)).None? ==>
      r == Ok(NewProfile(old(db.nextId), caller.id, body)) &&
      db.profiles == old(db.profiles) + [r.value] && db.nextId == old(db.nextId) + 1
  {
    var refusal := CreateRefusal(caller, db.profiles);
    if refusal.Some? {
      return Err(refusal.value);
    }
    var profile := StudentProfile(db.nextId, caller.id, body.githubUrl, body.linkedinUrl, body.portfolioUrl, [], []);
    for k := 0 to |body.projects|
      invariant profile == StudentProfile(db.nextId, caller.id, body.githubUrl, body.linkedinUrl, body.portfolioUrl,
                                          body.projects[..k], [])
    {
      var proj := body.projects[k];
      profile := profile.(projects := profile.projects + [PortfolioProject(proj.title, proj.description, proj.link)]);
      assert body.projects[..k + 1] == body.projects[..k] + [proj];
    }
    for k := 0 to |body.skills|
      invariant profile == StudentProfile(db.nextId, caller.id, body.githubUrl, body.linkedinUrl, body.portfolioUrl,
                                          body.projects, body.skills[..k])
    {
      var skill := body.skills[k];
      profile := profile.(skills := profile.skills + [StudentSkill(skill.name, skill.level)]);
      assert body.skills[..k + 1] == body.skills[..k] + [skill];
    }
    assert body.projects[..|body.projects|] == body.projects;
    assert body.skills[..|body.skills|] == body.skills;
    CreateKeepsOneProfile(caller, db.profiles, profile);
    AppendFresh(db.profiles, ProfileId, db.nextId, profile);
    db.profiles := db.profiles + [profile];
    db.nextId := db.nextId + 1;
    r := Ok(profile);
  }

  /** A field of the update body: a given value replaces the stored one, `None` keeps it. */
  function Overwrite<T>(given: Option<T>, stored: T): (r: T)
    ensures given.Some? ==> r == given.value
    ensures given.None? ==> r == stored
  {
    if given.Some? then given.value else stored
  }

  /** The profile after `update_user_profile`: each URL given replaces the stored one, each
      list given replaces the whole stored list, everything else is kept. */
  function ApplyUpdate(p: StudentProfile, u: ProfileUpdate): (r: StudentProfile)
    ensures r.id == p.id && r.userId == p.userId
    ensures u.githubUrl.None? ==> r.githubUrl == p.githubUrl
    ensures u.githubUrl.Some? ==> r.githubUrl == u.githubUrl
    ensures u.linkedinUrl.None? ==> r.linkedinUrl == p.linkedinUrl
    ensures u.linkedinUrl.Some? ==> r.linkedinUrl == u.linkedinUrl
    ensures u.portfolioUrl.None? ==> r.portfolioUrl == p.portfolioUrl
    ensures u.portfolioUrl.Some? ==> r.portfolioUrl == u.portfolioUrl
    ensures r.projects == Overwrite(u.projects, p.projects)
    ensures r.skills == Overwrite(u.skills, p.skills)
  {
    p.(githubUrl := if u.githubUrl.Some? then u.githubUrl else p.githubUrl,
       linkedinUrl := if u.linkedinUrl.Some? then u.linkedinUrl else p.linkedinUrl,
       portfolioUrl := if u.portfolioUrl.Some? then u.portfolioUrl else p.portfolioUrl,
       projects := Overwrite(u.projects, p.projects),
       skills := Overwrite(u.skills, p.skills))
  }

  /** Sending the same update twice stores what sending it once does. */
  lemma UpdateIdempotent(p: StudentProfile, u: ProfileUpdate)
    ensures ApplyUpdate(ApplyUpdate(p, u), u) == ApplyUpdate(p, u)
  {
  }

  /** The empty body changes nothing. */
  lemma EmptyUpdateKeeps(p: StudentProfile)
    ensures ApplyUpdate(p, EmptyProfileUpdate) == p
  {
  }

  /** A stored URL can never be cleared through the update, since `None` means "keep". */
  lemma UrlsNeverCleared(p: StudentProfile, u: ProfileUpdate)
    ensures p.githubUrl.Some? ==> ApplyUpdate(p, u).githubUrl.Some?
    ensures p.linkedinUrl.Some? ==> ApplyUpdate(p, u).linkedinUrl.Some?
    ensures p.portfolioUrl.Some? ==> ApplyUpdate(p, u).portfolioUrl.Some?
  {
  }

  /** The later of two updates wins field by field. */
  function Then(first: ProfileUpdate, second: ProfileUpdate): ProfileUpdate
  {
    ProfileUpdate(
      if second.githubUrl.Some? then second.githubUrl else first.githubUrl,
      if second.linkedinUrl.Some? then second.linkedinUrl else first.linkedinUrl,
      if second.portfolioUrl.Some? then second.portfolioUrl else first.portfolioUrl,
      if second.projects.Some? then second.projects else first.projects,
      if second.skills.Some? then second.skills else first.skills)
  }

  /** Two updates in a row amount to one update merging them, the later winning. */
  lemma UpdatesCompose(p: StudentProfile, first: ProfileUpdate, second: ProfileUpdate)
    ensures ApplyUpdate(ApplyUpdate(p, first), second) == ApplyUpdate(p, Then(first, second))
  {
  }

  /** An update carrying one skill leaves exactly that skill, whatever was stored before. */
  lemma OneSkillAfterUpdate(p: StudentProfile, u: ProfileUpdate, s: StudentSkill)
    requires u.skills == Some([s])
    ensures ApplyUpdate(p, u).skills == [s] && |ApplyUpdate(p, u).skills| == 1
  {
  }

  /** The field-by-field update of `update_my_profile`: the URLs first, then the project
      and skill lists rebuilt item by item. */
  method UpdatedProfile(stored: StudentProfile, body: ProfileUpdate) returns (profile: StudentProfile)
    ensures profile == ApplyUpdate(stored, body)
  {
    profile := stored;
    if body.githubUrl.Some? {
      profile := profile.(githubUrl := body.githubUrl);
    }
    if body.linkedinUrl.Some? {
      profile := profile.(linkedinUrl := body.linkedinUrl);
    }
    if body.portfolioUrl.Some? {
      profile := profile.(portfolioUrl := body.portfolioUrl);
    }
    if body.projects.Some? {
      var given := body.projects.value;
      profile := profile.(projects := []);
      for k := 0 to |given|
        invariant profile.projects == given[..k]
        invariant profile.id == stored.id && profile.userId == stored.userId
        invariant profile.skills == stored.skills
        invariant profile.githubUrl == ApplyUpdate(stored, body).githubUrl
        invariant profile.linkedinUrl == ApplyUpdate(stored, body).linkedinUrl
        invariant profile.portfolioUrl == ApplyUpdate(stored, body).portfolioUrl
      {
        var proj := given[k];
        profile := profile.(projects := profile.projects + [PortfolioProject(proj.title, proj.description, proj.link)]);
        assert given[..k + 1] == given[..k] + [proj];
      }
      assert given[..|given|] == given;
    }
    if body.skills.Some? {
      var given := body.skills.value;
      var kept := profile.projects;
      profile := profile.(skills := []);
      for k := 0 to |given|
        invariant profile.skills == given[..k]
        invariant profile.projects == kept
        invariant profile.id == stored.id && profile.userId == stored.userId
        invariant profile.githubUrl == ApplyUpdate(stored, body).githubUrl
        invariant profile.linkedinUrl == ApplyUpdate(stored, body).linkedinUrl
        invariant profile.portfolioUrl == ApplyUpdate(stored, body).portfolioUrl
      {
        var skill := given[k];
        profile := profile.(skills := profile.skills + [StudentSkill(skill.name, skill.level)]);
        assert given[..k + 1] == given[..k] + [skill];
      }
      assert given[..|given|] == given;
    }
  }

  /** `update_user_profile`: 404 without a profile (nothing changes); otherwise the URLs are
      assigned one by one and each list given is emptied and refilled from the body. */
  method UpdateProfile(db: Database, caller: User, body: ProfileUpdate) returns (r: Response<StudentProfile>)
    requires db.Valid()
    modifies db
    ensures db.Valid()
    ensures db.users == old(db.users) && db.jobs == old(db.jobs) && db.applications == old(db.applications)
    ensures db.resetTokens == old(db.resetTokens) && db.notifications == old(db.notifications)
    ensures db.projects == old(db.projects) && db.nextId == old(db.nextId)
    ensures FindProfile(old(db.profiles), caller.id).None? ==>
      r == Err(HttpError(404, "Profile not found")) && db.profiles == old(db.profiles)
    ensures FindProfile(old(db.profiles), caller.id).Some? ==>
      var i := FindProfile(old(db.profiles), caller.id).value;
      r == Ok(ApplyUpdate(old(db.profiles)[i], body)) && db.profiles == old(db.profiles)[i := r.value]
  {
    var found := FindProfile(db.profiles, caller.id);
    if found.None? {
      return Err(HttpError(404, "Profile not found"));
    }
    var i := found.value;
    var profile := UpdatedProfile(db.profiles[i], body);
    ReplaceSameKey(db.profiles, ProfileId, db.nextId, i, profile);
    db.profiles := db.profiles[i := profile];
    r := Ok(profile);
  }

  /** `read_student_profile_by_id`: 404 for an unknown user, checked first; then 404 when the
      user has no profile; else that profile. Any authenticated caller may ask. */
  function ReadProfileById(users: seq<User>, profiles: seq<StudentProfile>, userId: nat): (r: Response<StudentProfile>)
    ensures FindUser(users, userId).None? ==> r == Err(HttpError(404, "User not found"))
    ensures FindUser(users, userId).Some? && FindProfile(profiles, userId).None? ==>
      r == Err(HttpError(404, "Profile not found for this user"))
    ensures r.Ok? <==> FindUser(users, userId).Some? && FindProfile(profiles, userId).Some?
    ensures r.Ok? ==> r.value in profiles && r.value.userId == userId
  {
    if FindUser(users, userId).None? then Err(HttpError(404, "User not found"))
    else match FindProfile(profiles, userId)
      case None => Err(HttpError(404, "Profile not found for this user"))
      case Some(i) => Ok(profiles[i])
  }

  /** A student reading their own profile by id gets what GET /me gives them. */
  lemma ByIdAgreesWithMe(caller: User, users: seq<User>, profiles: seq<StudentProfile>)
    requires caller in users
    ensures ReadProfileById(users, profiles, caller.id).Ok? ==>
      ReadProfileById(users, profiles, caller.id) == ReadProfileMe(caller, profiles)
    ensures ReadProfileMe(caller, profiles).Ok? ==>
      ReadProfileById(users, profiles, caller.id) == ReadProfileMe(caller, profiles)
  {
    var i :| 0 <= i < |users| && users[i] == caller;
    assert FindUser(users, caller.id).Some?;
  }
}
