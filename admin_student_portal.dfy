/** The admin app's student page: jobs to apply for, the student's applications, CV upload
    and the apply button with its guards. */
module AdminStudentPortal {
  import opened Common
  import opened Models

  /** The page's data. */
  datatype PageData = PageData(jobs: seq<Job>, applications: seq<Application>, user: Option<User>, loading: bool)

  /** `loadData`: the three requests together; if any fails nothing is replaced. `loading`
      ends false either way. */
  function LoadData(d: PageData, jobs: Option<seq<Job>>, apps: Option<seq<Application>>, me: Option<User>)
    : (r: PageData)
    ensures !r.loading
    ensures jobs.Some? && apps.Some? && me.Some? ==>
      r.jobs == jobs.value && r.applications == apps.value && r.user == me
    ensures !(jobs.Some? && apps.Some? && me.Some?) ==> r == d.(loading := false)
  {
    if jobs.Some? && apps.Some? && me.Some? then PageData(jobs.value, apps.value, me, false)
    else d.(loading := false)
  }

  /** What a handler did: the alert shown, whether the server was called, and whether the
      page data is reloaded. */
  datatype Outcome = Outcome(alert: Option<string>, called: bool, reload: bool)

  /** A chosen file: its MIME type. */
  datatype File = File(mimeType: string)

  /** `handleFileUpload`: no file does nothing; a non-PDF is refused before any request;
      otherwise the upload's answer replaces the user. */
  function UploadCv(user: Option<User>, file: Option<File>, answer: Option<User>): (r: (Option<User>, Outcome))
    ensures file.None? ==> r == (user, Outcome(None, false, false))
    ensures file.Some? && file.value.mimeType != "application/pdf" ==>
      r == (user, Outcome(Some("Only PDF files are allowed"), false, false))
    ensures r.1.called <==> file.Some? && file.value.mimeType == "application/pdf"
    ensures r.1.called && answer.Some? ==> r == (answer, Outcome(Some("CV Uploaded Successfully!"), true, false))
    ensures r.1.called && answer.None? ==> r == (user, Outcome(Some("Failed to upload CV"), true, false))
  {
    if file.None? then (user, Outcome(None, false, false))
    else if file.value.mimeType != "application/pdf" then (user, Outcome(Some("Only PDF files are allowed"), false, false))
    else if answer.Some? then (answer, Outcome(Some("CV Uploaded Successfully!"), true, false))
    else (user, Outcome(Some("Failed to upload CV"), true, false))
  }

  /** `!user?.cv_filename`: no user, no name, or an empty name. */
  predicate LacksCv(user: Option<User>)
  {
    !(user.Some? && HasCv(user.value))
  }

  /** The server's answer to an apply: accepted, or refused with a `detail` (if any). */
  datatype ApplyAnswer = Accepted | Refused(detail: Option<string>)

  /** `handleApply`: without a CV the student is told to upload one and nothing else happens
      (no confirmation, no request); a declined confirmation does nothing; otherwise the
      request is sent, and success reloads the page. */
  function Apply(user: Option<User>, confirmed: bool, answer: ApplyAnswer): (r: Outcome)
    ensures LacksCv(user) ==> r == Outcome(Some("Please upload your CV before applying."), false, false)
    ensures !LacksCv(user) && !confirmed ==> r == Outcome(None, false, false)
    ensures r.called <==> !LacksCv(user) && confirmed
    ensures r.reload <==> r.called && answer == ApplyAnswer.Accepted
    ensures r.called && answer == ApplyAnswer.Accepted ==> r.alert == Some("Application Submitted!")
    ensures r.called && answer.Refused? ==>
      r.alert == Some(if answer.detail.Some? && answer.detail.value != "" then answer.detail.value else "Failed to apply")
  {
    if LacksCv(user) then Outcome(Some("Please upload your CV before applying."), false, false)
    else if !confirmed then Outcome(None, false, false)
    else match answer
      case Accepted => Outcome(Some("Application Submitted!"), true, true)
      case Refused(detail) =>
        Outcome(Some(if detail.Some? && detail.value != "" then detail.value else "Failed to apply"), true, false)
  }

  /** `hasApplied`. */
  predicate HasApplied(apps: seq<Application>, jobId: nat)
    ensures HasApplied(apps, jobId) <==> FindFirst(apps, (a: Application) => a.jobId == jobId).Some?
  {
    Any(apps, (a: Application) => a.jobId == jobId)
  }

  /** `getStatusToken`: nothing without an application for the job, else the score of the
      first one. */
  function StatusToken(apps: seq<Application>, jobId: nat): (r: Option<real>)
    ensures r.None? <==> !HasApplied(apps, jobId)
    ensures r.Some? ==>
      (exists i :: 0 <= i < |apps| && apps[i].jobId == jobId && apps[i].atsScore == r.value &&
         forall j :: 0 <= j < i ==> apps[j].jobId != jobId)
  {
    match FindFirst(apps, (a: Application) => a.jobId == jobId)
    case None => None
    case Some(i) => Some(apps[i].atsScore)
  }

  /** The job's button: a disabled "Applied", or "Apply Now". */
  datatype Button = Button(text: string, disabled: bool)

  function ApplyButton(apps: seq<Application>, jobId: nat): (b: Button)
    ensures b.disabled <==> HasApplied(apps, jobId)
    ensures b.text == (if HasApplied(apps, jobId) then "Applied" else "Apply Now")
  {
    if HasApplied(apps, jobId) then Button("Applied", true) else Button("Apply Now", false)
  }

  /** Once the reload after an accepted application brings the new row, the job's button is
      disabled and its token shows a score. */
  lemma AppliedJobLocked(apps: seq<Application>, a: Application)
    ensures ApplyButton(apps + [a], a.jobId).disabled && StatusToken(apps + [a], a.jobId).Some?
  {
    assert (apps + [a])[|apps|].jobId == a.jobId;
  }
}
