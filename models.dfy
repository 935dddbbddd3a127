/** The rows of the backend's tables, the enumerations their string
    columns hold, and the request bodies (schemas) whose defaults the
    endpoints rely on. */
module Models {
  import opened Common

  // ---------------------------------------------------------------------
  // Enumerations. Each is stored as its lower-case name; `Name` renders a
  // value and `Parse` is the validation the schemas perform on input.

  datatype UserRole = Student | Mentor | Admin

  function RoleName(r: UserRole): string
  {
    match r
    case Student => "student"
    case Mentor => "mentor"
    case Admin => "admin"
  }

  /** Accepts exactly the three role names. */
  function ParseRole(s: string): (r: Option<UserRole>)
    ensures r.Some? <==> s == "student" || s == "mentor" || s == "admin"
    ensures r.Some? ==> RoleName(r.value) == s
  {
    if s == "student" then Some(Student)
    else if s == "mentor" then Some(Mentor)
    else if s == "admin" then Some(Admin)
    else None
  }

  lemma RoleRoundTrip(r: UserRole, s: string)
    ensures ParseRole(RoleName(r)) == Some(r)
    ensures ParseRole(s).Some? ==> RoleName(ParseRole(s).value) == s
  {
  }

  datatype ApplicationStatus = Applied | Shortlisted | Accepted | Rejected

  function ApplicationStatusName(st: ApplicationStatus): string
  {
    match st
    case Applied => "applied"
    case Shortlisted => "shortlisted"
    case Accepted => "accepted"
    case Rejected => "rejected"
  }

  function ParseApplicationStatus(s: string): (r: Option<ApplicationStatus>)
    ensures r.Some? <==> s == "applied" || s == "shortlisted" || s == "accepted" || s == "rejected"
    ensures r.Some? ==> ApplicationStatusName(r.value) == s
  {
    if s == "applied" then Some(Applied)
    else if s == "shortlisted" then Some(Shortlisted)
    else if s == "accepted" then Some(Accepted)
    else if s == "rejected" then Some(Rejected)
    else None
  }

  lemma ApplicationStatusRoundTrip(st: ApplicationStatus)
    ensures ParseApplicationStatus(ApplicationStatusName(st)) == Some(st)
  {
  }

  datatype SkillLevel = Beginner | Intermediate | Advanced

  function SkillLevelName(l: SkillLevel): string
  {
    match l
    case Beginner => "beginner"
    case Intermediate => "intermediate"
    case Advanced => "advanced"
  }

  /** A skill's level must be one of the three names; the column default is beginner. */
  function ParseSkillLevel(s: string): (r: Option<SkillLevel>)
    ensures r.Some? <==> s == "beginner" || s == "intermediate" || s == "advanced"
    ensures r.Some? ==> SkillLevelName(r.value) == s
  {
    if s == "beginner" then Some(Beginner)
    else if s == "intermediate" then Some(Intermediate)
    else if s == "advanced" then Some(Advanced)
    else None
  }

  const DefaultSkillLevel: SkillLevel := Beginner

  datatype ProjectStatus = Pending | Approved | ProjectRejected

  function ProjectStatusName(st: ProjectStatus): string
  {
    match st
    case Pending => "pending"
    case Approved => "approved"
    case ProjectRejected => "rejected"
  }

  function ParseProjectStatus(s: string): (r: Option<ProjectStatus>)
    ensures r.Some? <==> s == "pending" || s == "approved" || s == "rejected"
    ensures r.Some? ==> ProjectStatusName(r.value) == s
  {
    if s == "pending" then Some(Pending)
    else if s == "approved" then Some(Approved)
    else if s == "rejected" then Some(ProjectRejected)
    else None
  }

  // ---------------------------------------------------------------------
  // Rows. Times are whole seconds; ids are the primary keys.

  datatype User = User(
    id: nat,
    email: string,
    hashedPassword: string,
    fullName: Option<string>,
    cvFilename: Option<string>,
    role: UserRole,
    isActive: bool)

  /** Python's `not user.cv_filename` is false exactly when a non-empty name is stored. */
  predicate HasCv(u: User)
  {
    u.cvFilename.Some? && u.cvFilename.value != ""
  }

  /** A user created with only the required columns (email, hash): student, active, no name, no CV. */
  function NewUser(id: nat, email: string, hashedPassword: string): (u: User)
    ensures u.role == Student && u.isActive
    ensures u.fullName.None? && !HasCv(u)
    ensures u.id == id && u.email == email && u.hashedPassword == hashedPassword
  {
    User(id, email, hashedPassword, None, None, Student, true)
  }

  datatype Job = Job(
    id: nat,
    title: string,
    description: string,
    requirements: string,
    adminId: nat,
    createdAt: int)

  datatype Application = Application(
    id: nat,
    jobId: nat,
    studentId: nat,
    cvSnapshotPath: Option<string>,
    atsScore: real,
    status: ApplicationStatus,
    createdAt: int)

  /** Column defaults: status applied, score 0.0. */
  function NewApplication(id: nat, jobId: nat, studentId: nat, now: int): (a: Application)
    ensures a.status == Applied && a.atsScore == 0.0 && a.cvSnapshotPath.None?
  {
    Application(id, jobId, studentId, None, 0.0, Applied, now)
  }

  /** A stored reset token: only the digest of the raw token is kept. */
  datatype ResetToken = ResetToken(
    id: nat,
    userId: nat,
    tokenHash: string,
    expiresAt: int,
    isUsed: bool,
    createdAt: int)

  datatype Notification = Notification(
    id: nat,
    recipientId: nat,
    message: string,
    kind: string,
    isRead: bool,
    createdAt: int)

  /** Column defaults: type "info", unread, created now. */
  function NewNotification(id: nat, recipientId: nat, message: string, now: int): (n: Notification)
    ensures n.kind == "info" && !n.isRead && n.createdAt == now
    ensures n.recipientId == recipientId && n.message == message
  {
    Notification(id, recipientId, message, "info", false, now)
  }

  datatype Project = Project(
    id: nat,
    title: string,
    description: string,
    status: ProjectStatus,
    studentId: nat,
    createdAt: int,
    updatedAt: Option<int>)

  // The student profile owns its portfolio projects and skills
  // (delete-orphan cascade): they are held inside the profile row.

  datatype PortfolioProject = PortfolioProject(title: string, description: Option<string>, link: Option<string>)

  datatype StudentSkill = StudentSkill(name: string, level: SkillLevel)

  datatype StudentProfile = StudentProfile(
    id: nat,
    userId: nat,
    githubUrl: Option<string>,
    linkedinUrl: Option<string>,
    portfolioUrl: Option<string>,
    projects: seq<PortfolioProject>,
    skills: seq<StudentSkill>)

  // ---------------------------------------------------------------------
  // Request bodies

  /** The create body: URLs optional, lists default to empty. */
  datatype ProfileCreate = ProfileCreate(
    githubUrl: Option<string>,
    linkedinUrl: Option<string>,
    portfolioUrl: Option<string>,
    projects: seq<PortfolioProject>,
    skills: seq<StudentSkill>)

  /** The update body: every field optional, `None` meaning "leave alone". */
  datatype ProfileUpdate = ProfileUpdate(
    githubUrl: Option<string>,
    linkedinUrl: Option<string>,
    portfolioUrl: Option<string>,
    projects: Option<seq<PortfolioProject>>,
    skills: Option<seq<StudentSkill>>)

  /** An empty create body stores no URL and no list entry. */
  const EmptyProfileCreate: ProfileCreate := ProfileCreate(None, None, None, [], [])

  /** An empty update body changes nothing. */
  const EmptyProfileUpdate: ProfileUpdate := ProfileUpdate(None, None, None, None, None)

  datatype UserUpdate = UserUpdate(fullName: Option<string>, email: Option<string>)

  datatype PasswordChange = PasswordChange(currentPassword: string, newPassword: string)

  datatype JobCreate = JobCreate(
    title: string,
    description: string,
    requirements: string,
    jobType: Option<string>,
    department: Option<string>)

  datatype ProjectCreate = ProjectCreate(title: string, description: string)

  // ---------------------------------------------------------------------
  // Table invariants the schema declares

  /** Primary keys: no two rows share an id. */
  ghost predicate DistinctIds<T>(rows: seq<T>, id: T -> nat)
  {
    forall i, j :: 0 <= i < j < |rows| ==> id(rows[i]) != id(rows[j])
  }

  /** `users.email` is UNIQUE. */
  ghost predicate UniqueEmails(users: seq<User>)
  {
    forall i, j :: 0 <= i < j < |users| ==> users[i].email != users[j].email
  }

  /** `student_profiles.user_id` is UNIQUE: at most one profile per user. */
  ghost predicate OneProfilePerUser(profiles: seq<StudentProfile>)
  {
    forall i, j :: 0 <= i < j < |profiles| ==> profiles[i].userId != profiles[j].userId
  }


  // ---------------------------------------------------------------------
  // A table invariant only an endpoint keeps

  /** No student holds two applications for the same job. The `applications` table declares
      no UNIQUE constraint on (job_id, student_id); the apply endpoint's "already applied"
      guard is what keeps this, and it is the only writer of the table. */
  ghost predicate OneApplicationPerPair(apps: seq<Application>)
  {
    forall i, j :: 0 <= i < j < |apps| ==>
      !(apps[i].jobId == apps[j].jobId && apps[i].studentId == apps[j].studentId)
  }

  function UserId(u: User): nat { u.id }
  function JobId(j: Job): nat { j.id }
  function ApplicationId(a: Application): nat { a.id }
  function ResetTokenId(t: ResetToken): nat { t.id }
  function NotificationId(n: Notification): nat { n.id }
  function ProjectId(p: Project): nat { p.id }
  function ProfileId(p: StudentProfile): nat { p.id }

  /** The row with primary key `id`, if any (`query(...).filter(id == ...).first()`). */
  function FindUser(users: seq<User>, id: nat): (r: Option<nat>)
    ensures r.Some? ==> r.value < |users| && users[r.value].id == id
    ensures r.None? ==> forall i :: 0 <= i < |users| ==> users[i].id != id
  {
    FindFirst(users, (u: User) => u.id == id)
  }

  function FindJob(jobs: seq<Job>, id: nat): (r: Option<nat>)
    ensures r.Some? ==> r.value < |jobs| && jobs[r.value].id == id
    ensures r.None? ==> forall i :: 0 <= i < |jobs| ==> jobs[i].id != id
  {
    FindFirst(jobs, (j: Job) => j.id == id)
  }

  function FindProfile(profiles: seq<StudentProfile>, userId: nat): (r: Option<nat>)
    ensures r.Some? ==> r.value < |profiles| && profiles[r.value].userId == userId
    ensures r.None? ==> forall i :: 0 <= i < |profiles| ==> profiles[i].userId != userId
  {
    FindFirst(profiles, (p: StudentProfile) => p.userId == userId)
  }

  /** Under distinct ids, the row found is the only one with that id. */
  lemma FindUserUnique(users: seq<User>, id: nat, i: nat)
    requires DistinctIds(users, UserId)
    requires i < |users| && users[i].id == id
    ensures FindUser(users, id) == Some(i)
  {
    var r := FindUser(users, id);
    assert r.Some?;
    assert UserId(users[r.value]) == UserId(users[i]);
  }
}
