/** The student app's job page: it loads the job and whether the student applied, and
    offers the apply button. */
module JobDetails {
  import opened Common
  import opened Models
  import Auth

  /** The page state; `navigatedTo` records a redirect, `toasts` the messages shown. */
  datatype Details = Details(
    job: Option<Job>,
    loading: bool,
    applying: bool,
    hasApplied: bool,
    application: Option<Application>,
    navigatedTo: Option<string>,
    toasts: seq<string>)

  const Initial: Details := Details(None, true, false, false, None, None, [])

  /** The load effect runs only when the route has an id and there is a user. */
  predicate LoadRuns(id: string, user: Option<Auth.AuthUser>)
    ensures user.None? || id == "" ==> !LoadRuns(id, user)
    ensures user.Some? && id != "" ==> LoadRuns(id, user)
  {
    id != "" && user.Some?
  }

  /** `loadData` for job `id`: the job request, then the applications request. A failure of
      either shows "Job not found" and goes to the dashboard (a job already received stays
      set). The first application for the job sets `hasApplied` and becomes `application`;
      none leaves both as they were. `loading` ends false. */
  function LoadData(d: Details, id: nat, job: Option<Job>, apps: Option<seq<Application>>): (r: Details)
    ensures !r.loading
    ensures job.None? ==> r == d.(loading := false, navigatedTo := Some("/dashboard"), toasts := d.toasts + ["Job not found"])
    ensures job.Some? ==> r.job == job
    ensures job.Some? && apps.None? ==>
      r == d.(job := job, loading := false, navigatedTo := Some("/dashboard"), toasts := d.toasts + ["Job not found"])
    ensures job.Some? && apps.Some? ==>
      r.navigatedTo == d.navigatedTo &&
      (r.hasApplied <==> d.hasApplied || exists i :: 0 <= i < |apps.value| && apps.value[i].jobId == id)
    ensures job.Some? && apps.Some? && (forall i :: 0 <= i < |apps.value| ==> apps.value[i].jobId != id) ==>
      r == d.(job := job, loading := false)
    ensures job.Some? && apps.Some? && (exists i :: 0 <= i < |apps.value| && apps.value[i].jobId == id) ==>
      exists i :: 0 <= i < |apps.value| && apps.value[i].jobId == id &&
        (forall j :: 0 <= j < i ==> apps.value[j].jobId != id) &&
        r == d.(job := job, loading := false, hasApplied := true, application := Some(apps.value[i]))
    ensures d.hasApplied ==> r.hasApplied
  {
    if job.None? then d.(loading := false, navigatedTo := Some("/dashboard"), toasts := d.toasts + ["Job not found"])
    else
      var withJob := d.(job := job);
      if apps.None? then withJob.(loading := false, navigatedTo := Some("/dashboard"), toasts := d.toasts + ["Job not found"])
      else match FindFirst(apps.value, (a: Application) => a.jobId == id)
        case None => withJob.(loading := false)
        case Some(i) => withJob.(loading := false, hasApplied := true, application := Some(apps.value[i]))
  }

  /** The server's answer to an apply. */
  datatype ApplyAnswer = Accepted | Refused(detail: Option<string>)

  /** Whether the user object carries a non-empty CV name; the user a login creates never does. */
  predicate HasCvName(cvFilename: Option<string>)
  {
    cvFilename.Some? && cvFilename.value != ""
  }

  /** `handleApply`: nothing without a job, a refusal toast without a CV (no request in
      either case); otherwise the request, and on success `hasApplied` and a reload.
      Returns the state, whether a request was sent, and whether the page reloads. */
  function Apply(d: Details, cvFilename: Option<string>, answer: ApplyAnswer): (r: (Details, bool, bool))
    ensures d.job.None? ==> r == (d, false, false)
    ensures d.job.Some? && !HasCvName(cvFilename) ==>
      r == (d.(toasts := d.toasts + ["Please upload your CV in your profile before applying."]), false, false)
    ensures r.1 <==> d.job.Some? && HasCvName(cvFilename)
    ensures r.1 ==> !r.0.applying
    ensures r.1 && answer == ApplyAnswer.Accepted ==> r.0.hasApplied && r.2
    ensures r.1 && answer.Refused? ==> r.0.hasApplied == d.hasApplied && !r.2
    ensures r.1 && answer == ApplyAnswer.Accepted ==>
      r == (d.(hasApplied := true, applying := false, toasts := d.toasts + ["Application submitted successfully!"]), true, true)
    ensures r.1 && answer.Refused? ==>
      r == (d.(applying := false,
               toasts := d.toasts + [if answer.detail.Some? && answer.detail.value != "" then answer.detail.value else "Failed to apply"]),
            true, false)
    ensures r.0.job == d.job && r.0.loading == d.loading && r.0.navigatedTo == d.navigatedTo &&
      r.0.application == d.application
  {
    if d.job.None? then (d, false, false)
    else if !HasCvName(cvFilename) then
      (d.(toasts := d.toasts + ["Please upload your CV in your profile before applying."]), false, false)
    else match answer
      case Accepted =>
        (d.(hasApplied := true, applying := false, toasts := d.toasts + ["Application submitted successfully!"]), true, true)
      case Refused(detail) =>
        var text := if detail.Some? && detail.value != "" then detail.value else "Failed to apply";
        (d.(applying := false, toasts := d.toasts + [text]), true, false)
  }

  /** The apply button is disabled while a request runs or without a CV name. */
  predicate ApplyDisabled(applying: bool, cvFilename: Option<string>)
  {
    applying || !HasCvName(cvFilename)
  }

  /** With a job loaded and no request running, the button is disabled exactly when a click
      would send no request. */
  lemma ApplyButtonMatchesHandler(d: Details, cvFilename: Option<string>, answer: ApplyAnswer)
    requires d.job.Some? && !d.applying
    ensures ApplyDisabled(d.applying, cvFilename) <==> !Apply(d, cvFilename, answer).1
  {
  }
}
