/** Applying for a job, and the two application listings. */
module Applications {
  import opened Common
  import opened Models
  import opened Store
  import opened Ats

  /** CVs are read from this directory, under the name stored on the user. */
  const UploadDir: string := "uploads/"

  /** True iff `studentId` already holds an application for `jobId`. */
  predicate AlreadyApplied(apps: seq<Application>, jobId: nat, studentId: nat)
    ensures AlreadyApplied(apps, jobId, studentId) <==>
      FindFirst(apps, (a: Application) => a.jobId == jobId && a.studentId == studentId).Some?
  {
    exists i :: 0 <= i < |apps| && apps[i].jobId == jobId && apps[i].studentId == studentId
  }

  /** The refusals of `apply_for_job`, tried in order: not a student (403), no CV (400),
      unknown job (404), already applied (400). `None` lets the request through. */
  function ApplyRefusal(caller: User, jobs: seq<Job>, apps: seq<Application>, jobId: nat): (r: Option<HttpError>)
    ensures caller.role != Student ==> r == Some(HttpError(403, "Only students can apply for jobs"))
    ensures caller.role == Student && !HasCv(caller) ==>
      r == Some(HttpError(400, "You must upload a CV to your profile before applying."))
    ensures caller.role == Student && HasCv(caller) && FindJob(jobs, jobId).None? ==>
      r == Some(HttpError(404, "Job not found"))
    ensures (caller.role == Student && HasCv(caller) && FindJob(jobs, jobId).Some? &&
             AlreadyApplied(apps, jobId, caller.id)) ==>
      r == Some(HttpError(400, "You have already applied for this job"))
    ensures r.None? <==>
      caller.role == Student && HasCv(caller) && FindJob(jobs, jobId).Some? && !AlreadyApplied(apps, jobId, caller.id)
  {
    if caller.role != Student then Some(HttpError(403, "Only students can apply for jobs"))
    else if !HasCv(caller) then Some(HttpError(400, "You must upload a CV to your profile before applying."))
    else if FindJob(jobs, jobId).None? then Some(HttpError(404, "Job not found"))
    else if AlreadyApplied(apps, jobId, caller.id) then Some(HttpError(400, "You have already applied for this job"))
    else None
  }

  /** An application that passed the guards never duplicates a (job, student) pair. */
  lemma ApplyKeepsOnePerPair(caller: User, jobs: seq<Job>, apps: seq<Application>, jobId: nat, a: Application)
    requires OneApplicationPerPair(apps)
    requires ApplyRefusal(caller, jobs, apps, jobId).None?
    requires a.jobId == jobId && a.studentId == caller.id
    ensures OneApplicationPerPair(apps + [a])
    ensures AlreadyApplied(apps + [a], jobId, caller.id)
  {
    assert (apps + [a])[|apps|] == a;
  }

  /** A second apply for the same job by the same student is refused with 400. */
  lemma ReapplyRefused(caller: User, jobs: seq<Job>, apps: seq<Application>, jobId: nat, a: Application)
    requires ApplyRefusal(caller, jobs, apps, jobId).None?
    requires a.jobId == jobId && a.studentId == caller.id
    ensures ApplyRefusal(caller, jobs, apps + [a], jobId) ==
      Some(HttpError(400, "You have already applied for this job"))
  {
    assert (apps + [a])[|apps|] == a;
  }

  /** `apply_for_job`: on a refusal nothing is stored; otherwise exactly one row is appended,
      with status applied, the caller's CV name as snapshot and the computed score. */
  method ApplyForJob(db: Database, caller: User, jobId: nat, cvAt: string -> CvFile, now: int)
    returns (r: Response<Application>)
    requires db.Valid() && caller in db.users
    modifies db
    ensures db.Valid()
    ensures db.users == old(db.users) && db.jobs == old(db.jobs) && db.resetTokens == old(db.resetTokens)
    ensures db.profiles == old(db.profiles) && db.notifications == old(db.notifications)
    ensures db.projects == old(db.projects)
    ensures ApplyRefusal(caller, db.jobs, old(db.applications), jobId).Some? ==>
      r == Err(ApplyRefusal(caller, db.jobs, old(db.applications), jobId).value) &&
      db.applications == old(db.applications) && db.nextId == old(db.nextId)
    ensures ApplyRefusal(caller, db.jobs, old(db.applications), jobId).None? ==>
      var job := db.jobs[FindJob(db.jobs, jobId).value];
      r == Ok(Application(old(db.nextId), jobId, caller.id, caller.cvFilename,
                          Score(job.description, job.requirements, cvAt(UploadDir + caller.cvFilename.value)),
                          Applied, now)) &&
      db.applications == old(db.applications) + [r.value] && db.nextId == old(db.nextId) + 1
  {
    var refusal := ApplyRefusal(caller, db.jobs, db.applications, jobId);
    if refusal.Some? {
      return Err(refusal.value);
    }
    var job := db.jobs[FindJob(db.jobs, jobId).value];
    var atsScore := CalculateAtsScore(job.description, job.requirements, cvAt(UploadDir + caller.cvFilename.value));
    var application := Application(db.nextId, jobId, caller.id, caller.cvFilename, atsScore, Applied, now);
    ApplyKeepsOnePerPair(caller, db.jobs, db.applications, jobId, application);
    AppendFresh(db.applications, ApplicationId, db.nextId, application);
    db.applications := db.applications + [application];
    db.nextId := db.nextId + 1;
    r := Ok(application);
  }

  /** The job filter of the admin listing: applied only when `job_id` is given and non-zero. */
  predicate MatchesJobFilter(jobId: Option<int>, a: Application)
    ensures jobId.None? || jobId.value == 0 ==> MatchesJobFilter(jobId, a)
    ensures jobId.Some? && jobId.value != 0 ==> (MatchesJobFilter(jobId, a) <==> a.jobId == jobId.value)
  {
    jobId.None? || jobId.value == 0 || a.jobId == jobId.value
  }

  /** `list_applications_admin`: 403 for non-admins, else the window of the (filtered) table. */
  function ListApplicationsAdmin(caller: User, apps: seq<Application>, skip: nat, limit: nat, jobId: Option<int>)
    : (r: Response<seq<Application>>)
    ensures r.Err? <==> caller.role != Admin
    ensures r.Err? ==> r.error.status == 403
    ensures r.Ok? ==> |r.value| <= limit
    ensures r.Ok? ==> forall a :: a in r.value ==> a in apps && MatchesJobFilter(jobId, a)
    ensures r.Ok? && (jobId.None? || jobId.value == 0) ==> r.value == Window(apps, skip, limit)
    ensures r.Ok? && jobId.Some? && jobId.value != 0 ==>
      r.value == Window(Filter(apps, a => MatchesJobFilter(jobId, a)), skip, limit)
  {
    if caller.role != Admin then Err(HttpError(403, "Not authorized"))
    else
      var rows := if jobId.Some? && jobId.value != 0 then Filter(apps, a => MatchesJobFilter(jobId, a)) else apps;
      Ok(Window(rows, skip, limit))
  }

  /** With no offset and a large enough limit, an admin sees every matching application. */
  lemma AdminListComplete(caller: User, apps: seq<Application>, limit: nat, jobId: Option<int>, a: Application)
    requires caller.role == Admin && limit >= |apps|
    requires a in apps && MatchesJobFilter(jobId, a)
    ensures a in ListApplicationsAdmin(caller, apps, 0, limit, jobId).value
  {
    var rows := if jobId.Some? && jobId.value != 0 then Filter(apps, x => MatchesJobFilter(jobId, x)) else apps;
    assert a in rows;
    var i :| 0 <= i < |rows| && rows[i] == a;
    assert Window(rows, 0, limit)[i] == a;
  }

  /** `list_my_applications`: exactly the caller's applications, in table order. */
  function MyApplications(caller: User, apps: seq<Application>): (r: seq<Application>)
    ensures forall a :: a in r <==> a in apps && a.studentId == caller.id
  {
    Filter(apps, (a: Application) => a.studentId == caller.id)
  }
}
