/** Job postings: admins post, every authenticated user lists and reads. */
module Jobs {
  import opened Common
  import opened Models
  import opened Store

  /** `create_job`: 403 for non-admins; otherwise a job carrying the given title, description
      and requirements, posted by the caller. The body's job type and department are not kept. */
  function CreateJobResult(caller: User, body: JobCreate, id: nat, now: int): (r: Response<Job>)
    ensures r.Err? <==> caller.role != Admin
    ensures r.Err? ==> r.error == HttpError(403, "Only admins can post jobs")
    ensures r.Ok? ==>
      r.value.id == id && r.value.adminId == caller.id && r.value.createdAt == now &&
      r.value.title == body.title && r.value.description == body.description &&
      r.value.requirements == body.requirements
  {
    if caller.role != Admin then Err(HttpError(403, "Only admins can post jobs"))
    else Ok(Job(id, body.title, body.description, body.requirements, caller.id, now))
  }

  /** The stored job does not depend on the job type or department sent. */
  lemma JobTypeAndDepartmentDropped(caller: User, body: JobCreate, jobType: Option<string>,
                                    department: Option<string>, id: nat, now: int)
    ensures CreateJobResult(caller, body.(jobType := jobType, department := department), id, now) ==
      CreateJobResult(caller, body, id, now)
  {
  }

  /** `create_job` on the session: the new row is appended under a fresh key. */
  method CreateJob(db: Database, caller: User, body: JobCreate, now: int) returns (r: Response<Job>)
    requires db.Valid()
    modifies db
    ensures db.Valid()
    ensures r == CreateJobResult(caller, body, old(db.nextId), now)
    ensures r.Err? ==> db.jobs == old(db.jobs) && db.nextId == old(db.nextId)
    ensures r.Ok? ==> db.jobs == old(db.jobs) + [r.value] && db.nextId == old(db.nextId) + 1
    ensures db.users == old(db.users) && db.applications == old(db.applications) && db.projects == old(db.projects)
    ensures db.resetTokens == old(db.resetTokens) && db.profiles == old(db.profiles)
    ensures db.notifications == old(db.notifications)
  {
    r := CreateJobResult(caller, body, db.nextId, now);
    if r.Ok? {
      AppendFresh(db.jobs, JobId, db.nextId, r.value);
      db.jobs := db.jobs + [r.value];
      db.nextId := db.nextId + 1;
    }
  }

  /** `read_jobs`: a page of the table in stored order, with no other filter or sort. */
  function ReadJobs(jobs: seq<Job>, skip: nat, limit: nat): (r: seq<Job>)
    ensures |r| <= limit
    ensures forall i :: 0 <= i < |r| ==> skip + i < |jobs| && r[i] == jobs[skip + i]
    ensures skip < |jobs| && limit > 0 ==> r != []
    ensures |r| == if skip >= |jobs| then 0 else Min(limit, |jobs| - skip)
  {
    Window(jobs, skip, limit)
  }

  /** Paging through the listing with consecutive offsets yields the table in order. */
  lemma {:induction false} PagesCoverTable(jobs: seq<Job>, pageSize: nat, pages: nat)
    requires pageSize * pages >= |jobs|
    ensures ReadJobs(jobs, 0, pageSize * pages) == jobs
    ensures pages > 0 ==>
      ReadJobs(jobs, 0, pageSize * (pages - 1)) + ReadJobs(jobs, pageSize * (pages - 1), pageSize) == jobs
  {
    assert Window(jobs, 0, pageSize * pages) == jobs;
    if pages > 0 {
      WindowsConcat(jobs, 0, pageSize * (pages - 1), pageSize);
      assert pageSize * (pages - 1) + pageSize == pageSize * pages;
    }
  }

  /** `read_job`: the job with that id, or 404. */
  function ReadJob(jobs: seq<Job>, id: nat): (r: Response<Job>)
    ensures r.Err? <==> forall i :: 0 <= i < |jobs| ==> jobs[i].id != id
    ensures r.Err? ==> r.error == HttpError(404, "Job not found")
    ensures r.Ok? ==> r.value in jobs && r.value.id == id
  {
    match FindJob(jobs, id)
    case None => Err(HttpError(404, "Job not found"))
    case Some(i) => Ok(jobs[i])
  }

  /** A job just posted under a fresh key is what reading that key returns. */
  lemma {:induction false} PostedJobReadable(jobs: seq<Job>, caller: User, body: JobCreate, id: nat, now: int)
    requires CreateJobResult(caller, body, id, now).Ok?
    requires forall i :: 0 <= i < |jobs| ==> jobs[i].id != id
    ensures ReadJob(jobs + [CreateJobResult(caller, body, id, now).value], id) ==
      CreateJobResult(caller, body, id, now)
  {
    var job := CreateJobResult(caller, body, id, now).value;
    var all := jobs + [job];
    assert all[|jobs|] == job;
    assert forall i :: 0 <= i < |jobs| ==> all[i] == jobs[i];
  }
}
