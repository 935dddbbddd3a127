/** The two administrator pages: the admin app's dashboard (jobs newest first, one job
    selected, its applications) with the job form, and the student app's older admin page
    (all applications, the job form). */
module AdminPortal {
  import opened Common
  import opened Models

  function JobCreatedAt(j: Job): int { j.createdAt }

  // ---------------------------------------------------------------------
  // The admin app's dashboard

  /** The job list and the selected job after a fetch: the answer sorted newest first, and
      the newest job selected when nothing was selected; a failed fetch changes nothing. */
  function AfterFetchJobs(jobs: seq<Job>, selected: Option<Job>, fetched: Option<seq<Job>>)
    : (r: (seq<Job>, Option<Job>))
    ensures fetched.None? ==> r == (jobs, selected)
    ensures fetched.Some? ==> r.0 == SortDesc(fetched.value, JobCreatedAt)
    ensures selected.Some? ==> r.1 == selected
    ensures selected.None? && fetched.Some? && r.0 != [] ==> r.1 == Some(r.0[0])
    ensures r.1.None? <==> selected.None? && (fetched.None? || fetched.value == [])
  {
    if fetched.None? then (jobs, selected)
    else
      var sorted := SortDesc(fetched.value, JobCreatedAt);
      SortDescCorrect(fetched.value, JobCreatedAt);
      (sorted, if |sorted| > 0 && selected.None? then Some(sorted[0]) else selected)
  }

  /** The fetched list holds exactly the jobs answered, newest first, and a job selected by
      default is one of the newest. */
  lemma {:induction false} FetchedJobsNewestFirst(selected: Option<Job>, jobs: seq<Job>, answer: seq<Job>)
    ensures var r := AfterFetchJobs(jobs, selected, Some(answer));
      multiset(r.0) == multiset(answer) && SortedDesc(r.0, JobCreatedAt) &&
      (selected.None? && answer != [] ==>
         r.1.Some? && r.1.value in answer && forall j :: j in answer ==> j.createdAt <= r.1.value.createdAt)
  {
    var sorted := SortDesc(answer, JobCreatedAt);
    SortDescCorrect(answer, JobCreatedAt);
    if selected.None? && answer != [] {
      assert sorted[0] in multiset(answer);
      forall j | j in answer ensures j.createdAt <= sorted[0].createdAt {
        assert j in multiset(sorted);
        var k :| 0 <= k < |sorted| && sorted[k] == j;
        if k > 0 { assert JobCreatedAt(sorted[0]) >= JobCreatedAt(sorted[k]); }
      }
    }
  }

  /** What the selection effect does. */
  datatype SelectionAction = LoadApplications(jobId: nat) | ClearApplications

  /** A selected job loads its applications; no selection empties the list. */
  function OnSelection(selected: Option<Job>): (r: SelectionAction)
    ensures selected.Some? <==> r.LoadApplications?
    ensures selected.Some? ==> r.jobId == selected.value.id
  {
    if selected.Some? then LoadApplications(selected.value.id) else ClearApplications
  }

  /** The job form. */
  datatype JobForm = JobForm(title: string, description: string, requirements: string)

  const EmptyForm: JobForm := JobForm("", "", "")

  datatype AdminTab = DashboardTab | PostJobTab

  /** After posting a job: the form, the tab, whether the jobs are refetched, and `posting`. */
  datatype PostOutcome = PostOutcome(form: JobForm, tab: AdminTab, refetchJobs: bool, posting: bool)

  /** `handlePostJob`: success empties the form, refetches the jobs and shows the dashboard;
      failure keeps the form and the tab; `posting` ends false in both. */
  function PostJob(form: JobForm, tab: AdminTab, succeeded: bool): (r: PostOutcome)
    ensures !r.posting
    ensures succeeded ==> r.form == EmptyForm && r.refetchJobs && r.tab == DashboardTab
    ensures !succeeded ==> r.form == form && !r.refetchJobs && r.tab == tab
  {
    if succeeded then PostOutcome(EmptyForm, DashboardTab, true, false)
    else PostOutcome(form, tab, false, false)
  }

  /** The score tiers both pages use. */
  datatype Tier = Green | Yellow | Red

  function ScoreTier(score: real): (t: Tier)
    ensures t == Green <==> score >= 80.0
    ensures t == Yellow <==> 60.0 <= score < 80.0
    ensures t == Red <==> score < 60.0
  {
    if score >= 80.0 then Green else if score >= 60.0 then Yellow else Red
  }

  function TierRank(t: Tier): nat
  {
    match t
    case Red => 0
    case Yellow => 1
    case Green => 2
  }

  /** A higher score never gets a lower tier. */
  lemma TierMonotone(a: real, b: real)
    requires a <= b
    ensures TierRank(ScoreTier(a)) <= TierRank(ScoreTier(b))
  {
  }

  /** `getScoreColor` on the admin app's dashboard. */
  function DashboardScoreClass(score: real): (c: string)
    ensures ScoreTier(score) == Green ==> c == "text-green-600 font-bold bg-green-50 px-2 py-1 rounded"
    ensures ScoreTier(score) == Yellow ==> c == "text-yellow-600 font-medium bg-yellow-50 px-2 py-1 rounded"
    ensures ScoreTier(score) == Red ==> c == "text-red-600 bg-red-50 px-2 py-1 rounded"
  {
    match ScoreTier(score)
    case Green => "text-green-600 font-bold bg-green-50 px-2 py-1 rounded"
    case Yellow => "text-yellow-600 font-medium bg-yellow-50 px-2 py-1 rounded"
    case Red => "text-red-600 bg-red-50 px-2 py-1 rounded"
  }

  /** The avatar letter: the first character of the student's name, 'U' without one. */
  function AvatarLetter(fullName: Option<string>): (s: string)
    ensures |s| == 1
    ensures fullName.Some? && fullName.value != "" ==> s == [fullName.value[0]]
    ensures !(fullName.Some? && fullName.value != "") ==> s == "U"
  {
    if fullName.Some? && fullName.value != "" then [fullName.value[0]] else "U"
  }

  /** The name shown: the student's name, or "User #<id>" without one. */
  function DisplayName(fullName: Option<string>, studentId: nat): (s: string)
    ensures fullName.Some? && fullName.value != "" ==> s == fullName.value
    ensures !(fullName.Some? && fullName.value != "") ==> s == "User #" + NatToString(studentId)
  {
    if fullName.Some? && fullName.value != "" then fullName.value else "User #" + NatToString(studentId)
  }

  /** Two applications without a name are told apart by their student ids. */
  lemma {:induction false} FallbackNamesDistinct(a: nat, b: nat)
    requires a != b
    ensures DisplayName(None, a) != DisplayName(None, b)
  {
    var na, nb := DisplayName(None, a), DisplayName(None, b);
    if na == nb {
      assert na[6..] == NatToString(a);
      assert nb[6..] == NatToString(b);
      NatToStringInjective(a, b);
    }
  }

  // ---------------------------------------------------------------------
  // The student app's admin page

  datatype LegacyTab = ApplicationsTab | LegacyPostJobTab

  /** Entering the applications tab fetches the applications. */
  predicate FetchOnTab(tab: LegacyTab)
    ensures FetchOnTab(tab) <==> tab != LegacyPostJobTab
  {
    tab == ApplicationsTab
  }

  /** After posting: the alert shown, the form, the tab, and `posting`. */
  datatype LegacyPostOutcome = LegacyPostOutcome(alert: string, form: JobForm, tab: LegacyTab, posting: bool)

  /** Success alerts, empties the form and goes to the applications tab (which, coming
      from the form, fetches them); failure alerts and keeps the form and the tab. */
  function LegacyPostJob(form: JobForm, tab: LegacyTab, succeeded: bool): (r: LegacyPostOutcome)
    ensures !r.posting
    ensures succeeded ==> r.alert == "Job Posted Successfully!" && r.form == EmptyForm && r.tab == ApplicationsTab
    ensures !succeeded ==> r.alert == "Failed to post job" && r.form == form && r.tab == tab
    ensures succeeded ==> FetchOnTab(r.tab)
  {
    if succeeded then LegacyPostOutcome("Job Posted Successfully!", EmptyForm, ApplicationsTab, false)
    else LegacyPostOutcome("Failed to post job", form, tab, false)
  }

  /** `getScoreColor` on the student app's admin page: the same tiers, shorter classes. */
  function LegacyScoreClass(score: real): (c: string)
    ensures ScoreTier(score) == Green ==> c == "text-green-600 font-bold"
    ensures ScoreTier(score) == Yellow ==> c == "text-yellow-600 font-medium"
    ensures ScoreTier(score) == Red ==> c == "text-red-600"
  {
    match ScoreTier(score)
    case Green => "text-green-600 font-bold"
    case Yellow => "text-yellow-600 font-medium"
    case Red => "text-red-600"
  }
}
