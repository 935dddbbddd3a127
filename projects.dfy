/** Student projects: students submit and see their own, everyone else
    sees all of them. */
module Projects {
  import opened Common
  import opened Models
  import opened Store

  /** `create_project`: 403 for non-students; otherwise a pending project of the caller
      with the given title and description, created now and never updated. */
  function CreateProjectResult(caller: User, body: ProjectCreate, id: nat, now: int): (r: Response<Project>)
    ensures r.Err? <==> caller.role != Student
    ensures r.Err? ==> r.error == HttpError(403, "Only students can submit projects")
    ensures r.Ok? ==>
      r.value.id == id && r.value.status == Pending && r.value.studentId == caller.id &&
      r.value.title == body.title && r.value.description == body.description &&
      r.value.createdAt == now && r.value.updatedAt.None?
  {
    if caller.role != Student then Err(HttpError(403, "Only students can submit projects"))
    else Ok(Project(id, body.title, body.description, Pending, caller.id, now, None))
  }

  /** `create_project` on the session: the new row is appended under a fresh key. */
  method CreateProject(db: Database, caller: User, body: ProjectCreate, now: int) returns (r: Response<Project>)
    requires db.Valid()
    modifies db
    ensures db.Valid()
    ensures r == CreateProjectResult(caller, body, old(db.nextId), now)
    ensures r.Err? ==> db.projects == old(db.projects) && db.nextId == old(db.nextId)
    ensures r.Ok? ==> db.projects == old(db.projects) + [r.value] && db.nextId == old(db.nextId) + 1
    ensures db.users == old(db.users) && db.jobs == old(db.jobs) && db.applications == old(db.applications)
    ensures db.resetTokens == old(db.resetTokens) && db.profiles == old(db.profiles)
    ensures db.notifications == old(db.notifications)
  {
    r := CreateProjectResult(caller, body, db.nextId, now);
    if r.Ok? {
      AppendFresh(db.projects, ProjectId, db.nextId, r.value);
      db.projects := db.projects + [r.value];
      db.nextId := db.nextId + 1;
    }
  }

  /** `read_projects`: a student gets a page of their own projects, any other role a page
      of all projects. */
  function ReadProjects(caller: User, projects: seq<Project>, skip: nat, limit: nat): (r: seq<Project>)
    ensures |r| <= limit
    ensures forall p :: p in r ==> p in projects
    ensures caller.role == Student ==> forall p :: p in r ==> p.studentId == caller.id
    ensures caller.role != Student ==> r == Window(projects, skip, limit)
    ensures caller.role == Student ==> r == Window(Filter(projects, (p: Project) => p.studentId == caller.id), skip, limit)
  {
    var rows := if caller.role == Student then Filter(projects, (p: Project) => p.studentId == caller.id) else projects;
    assert forall i :: 0 <= i < |Window(rows, skip, limit)| ==> Window(rows, skip, limit)[i] in rows;
    Window(rows, skip, limit)
  }

  /** From the start with a limit covering the table, a student sees every project of
      theirs (and, by the contract above, nothing else). */
  lemma StudentSeesOwnProjects(caller: User, projects: seq<Project>, limit: nat, p: Project)
    requires caller.role == Student && limit >= |projects|
    requires p in projects && p.studentId == caller.id
    ensures p in ReadProjects(caller, projects, 0, limit)
  {
    var rows := Filter(projects, (q: Project) => q.studentId == caller.id);
    var i :| 0 <= i < |rows| && rows[i] == p;
    assert Window(rows, 0, limit)[i] == p;
  }

  function FindProject(projects: seq<Project>, id: nat): (r: Option<nat>)
    ensures r.Some? ==> r.value < |projects| && projects[r.value].id == id
    ensures r.None? ==> forall i :: 0 <= i < |projects| ==> projects[i].id != id
  {
    FindFirst(projects, (p: Project) => p.id == id)
  }

  /** `read_project`: 404 for an unknown id, 403 for a student asking for another
      student's project, else the project. */
  function ReadProject(caller: User, projects: seq<Project>, id: nat): (r: Response<Project>)
    ensures FindProject(projects, id).None? ==> r == Err(HttpError(404, "Project not found"))
    ensures r == Err(HttpError(403, "Not enough permissions")) <==>
      FindProject(projects, id).Some? && caller.role == Student &&
      projects[FindProject(projects, id).value].studentId != caller.id
    ensures r.Ok? ==> r.value in projects && r.value.id == id
    ensures r.Ok? && caller.role == Student ==> r.value.studentId == caller.id
  {
    match FindProject(projects, id)
    case None => Err(HttpError(404, "Project not found"))
    case Some(i) =>
      if caller.role == Student && projects[i].studentId != caller.id then Err(HttpError(403, "Not enough permissions"))
      else Ok(projects[i])
  }

  /** Under distinct keys, whatever the listing shows the caller can also be fetched by id. */
  lemma ListedProjectReadable(caller: User, projects: seq<Project>, skip: nat, limit: nat, p: Project)
    requires DistinctIds(projects, ProjectId)
    requires p in ReadProjects(caller, projects, skip, limit)
    ensures ReadProject(caller, projects, p.id) == Ok(p)
  {
    var i :| 0 <= i < |projects| && projects[i] == p;
    assert FindProject(projects, p.id) == Some(i);
  }
}
