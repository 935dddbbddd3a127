/** The student app's main page: tabs, the job list with its filters and six-per-page
    pagination, the applications it fetches, and the password form. */
module StudentPortal {
  import opened Common
  import opened Models
  import RealtimeClient

  datatype Tab = JobsTab | ApplicationsTab | ProfileTab

  /** The `#profile` hash opens the profile tab; any other hash keeps the tab. */
  function TabForHash(tab: Tab, hash: string): (r: Tab)
    ensures hash == "#profile" ==> r == ProfileTab
    ensures hash != "#profile" ==> r == tab
  {
    if hash == "#profile" then ProfileTab else tab
  }

  // ---------------------------------------------------------------------
  // Pagination

  const JobsPerPage: nat := 6

  /** `Math.ceil(n / 6)`. */
  function PageCount(n: nat): (c: nat)
    ensures c * JobsPerPage >= n
    ensures c > 0 ==> (c - 1) * JobsPerPage < n
    ensures c == 0 <==> n == 0
  {
    (n + JobsPerPage - 1) / JobsPerPage
  }

  /** `jobs.slice((p - 1) * 6, p * 6)`: the jobs of page `p`, at most six. */
  function PageJobs<T>(jobs: seq<T>, p: nat): (r: seq<T>)
    requires p >= 1
    ensures |r| <= JobsPerPage
    ensures forall i :: 0 <= i < |r| ==> (p - 1) * JobsPerPage + i < |jobs| && r[i] == jobs[(p - 1) * JobsPerPage + i]
    ensures p <= PageCount(|jobs|) ==> r != []
    ensures p > PageCount(|jobs|) ==> r == []
  {
    var start := Min((p - 1) * JobsPerPage, |jobs|);
    var end := Min(p * JobsPerPage, |jobs|);
    jobs[start..end]
  }

  /** Pages 1 to `k`, one after the other. */
  function PagesUpTo<T>(jobs: seq<T>, k: nat): seq<T>
  {
    if k == 0 then [] else PagesUpTo(jobs, k - 1) + PageJobs(jobs, k)
  }

  /** Walking the pages from the first to the last shows every job once, in list order. */
  lemma {:induction false} PagesCoverJobs<T>(jobs: seq<T>, k: nat)
    ensures PagesUpTo(jobs, k) == jobs[..Min(k * JobsPerPage, |jobs|)]
  {
    if k > 0 {
      PagesCoverJobs(jobs, k - 1);
      var a := Min((k - 1) * JobsPerPage, |jobs|);
      var b := Min(k * JobsPerPage, |jobs|);
      assert jobs[..a] + jobs[a..b] == jobs[..b];
    }
  }

  lemma AllPagesAreTheList<T>(jobs: seq<T>)
    ensures PagesUpTo(jobs, PageCount(|jobs|)) == jobs
  {
    PagesCoverJobs(jobs, PageCount(|jobs|));
  }

  /** The controls appear only when the list has more than one page's worth. */
  predicate ControlsShown(n: nat)
    ensures ControlsShown(n) <==> PageCount(n) >= 2
  {
    n > JobsPerPage
  }

  /** "Previous": one page back, never below 1; disabled on page 1. */
  function PrevPage(p: nat): (r: nat)
    ensures r >= 1
    ensures p >= 1 ==> r <= p
    ensures p > 1 ==> r == p - 1
  {
    Max(p - 1, 1)
  }

  predicate PrevDisabled(p: nat)
    ensures p >= 1 ==> (PrevDisabled(p) <==> PrevPage(p) == p)
  {
    p == 1
  }

  /** "Next": one page on, never past the last page; disabled on the last page. */
  function NextPage(p: nat, n: nat): (r: nat)
    ensures r <= PageCount(n)
    ensures p < PageCount(n) ==> r == p + 1
    ensures p >= PageCount(n) ==> r == PageCount(n)
  {
    Min(p + 1, PageCount(n))
  }

  predicate NextDisabled(p: nat, n: nat)
    ensures p <= PageCount(n) ==> (NextDisabled(p, n) <==> NextPage(p, n) == p)
  {
    p == PageCount(n)
  }

  /** From a page within range, both buttons stay within range, and a button is disabled
      exactly when pressing it would not move. */
  lemma PagingStaysInRange(p: nat, n: nat)
    requires ControlsShown(n) && 1 <= p <= PageCount(n)
    ensures 1 <= PrevPage(p) <= PageCount(n) && 1 <= NextPage(p, n) <= PageCount(n)
    ensures PrevDisabled(p) <==> PrevPage(p) == p
    ensures NextDisabled(p, n) <==> NextPage(p, n) == p
    ensures !PrevDisabled(p) ==> PrevPage(p) == p - 1
    ensures !NextDisabled(p, n) ==> NextPage(p, n) == p + 1
  {
  }

  // ---------------------------------------------------------------------
  // Filters and refetches

  /** The filter selects: "" means no choice. */
  datatype Filters = Filters(jobType: string, department: string, sortBy: string, applicationStatus: string)

  const InitialFilters: Filters := Filters("", "", "newest", "")

  /** The query actually sent: empty job type, department and application status are
      dropped, the sort order is always sent. */
  datatype JobQuery = JobQuery(jobType: Option<string>, department: Option<string>, sortBy: string,
                               applicationStatus: Option<string>)

  function NonEmpty(s: string): (r: Option<string>)
    ensures r.Some? <==> s != ""
    ensures r.Some? ==> r.value == s
  {
    if s == "" then None else Some(s)
  }

  function CleanFilters(f: Filters): (q: JobQuery)
    ensures q.sortBy == f.sortBy
    ensures q.jobType.Some? <==> f.jobType != ""
    ensures q.department.Some? <==> f.department != ""
    ensures q.applicationStatus.Some? <==> f.applicationStatus != ""
    ensures q.jobType.Some? ==> q.jobType.value == f.jobType
    ensures q.department.Some? ==> q.department.value == f.department
    ensures q.applicationStatus.Some? ==> q.applicationStatus.value == f.applicationStatus
  {
    JobQuery(NonEmpty(f.jobType), NonEmpty(f.department), f.sortBy, NonEmpty(f.applicationStatus))
  }

  /** The initial filters send only the sort order. */
  lemma InitialQuery()
    ensures CleanFilters(InitialFilters) == JobQuery(None, None, "newest", None)
  {
  }

  /** What an effect run does: which lists it refetches and the page it leaves. */
  datatype EffectRun = EffectRun(fetchJobs: bool, fetchApplications: bool, page: nat)

  /** The effect on a change of tab or filters: the jobs tab refetches and goes back to
      page 1; the applications tab refetches the applications. */
  function OnTabOrFilters(tab: Tab, page: nat): (r: EffectRun)
    ensures r.fetchJobs <==> tab == JobsTab
    ensures r.fetchApplications <==> tab == ApplicationsTab
    ensures r.page == (if tab == JobsTab then 1 else page)
  {
    EffectRun(tab == JobsTab, tab == ApplicationsTab, if tab == JobsTab then 1 else page)
  }

  /** The effect on a realtime event: `job_posted` refetches the jobs and keeps the page;
      `status_updated` refetches the applications. */
  function OnEvent(lastEvent: Option<RealtimeClient.WsEvent>, page: nat): (r: EffectRun)
    ensures r.page == page
    ensures r.fetchJobs <==> lastEvent.Some? && lastEvent.value.event == "job_posted"
    ensures r.fetchApplications <==> lastEvent.Some? && lastEvent.value.event == "status_updated"
  {
    if lastEvent.None? then EffectRun(false, false, page)
    else if lastEvent.value.event == "job_posted" then EffectRun(true, false, page)
    else if lastEvent.value.event == "status_updated" then EffectRun(false, true, page)
    else EffectRun(false, false, page)
  }

  // ---------------------------------------------------------------------
  // Per-job button and the password form

  /** A job's link reads "View Status" when one of the student's applications is for it. */
  function JobButtonLabel(applications: seq<Application>, jobId: nat): (text: string)
    ensures text == "View Status" <==> exists i :: 0 <= i < |applications| && applications[i].jobId == jobId
    ensures text == "View Status" || text == "View Details"
  {
    if Any(applications, (a: Application) => a.jobId == jobId) then "View Status" else "View Details"
  }

  datatype PasswordForm = PasswordForm(currentPassword: string, newPassword: string)

  /** The form is cleared only once the change succeeded. */
  function AfterPasswordChange(form: PasswordForm, succeeded: bool): (r: PasswordForm)
    ensures succeeded ==> r == PasswordForm("", "")
    ensures !succeeded ==> r == form
  {
    if succeeded then PasswordForm("", "") else form
  }
}
