/** The admin app's project dashboard for students: the project list, the submit form in a
    modal, and the status badge of each project. */
module StudentDashboard {
  import opened Common
  import opened Models

  /** How a status string is shown: `approved`, `rejected`, and everything else. */
  datatype StatusKind = ApprovedKind | RejectedKind | OtherKind

  function KindOf(status: string): (k: StatusKind)
    ensures k == ApprovedKind <==> status == "approved"
    ensures k == RejectedKind <==> status == "rejected"
  {
    if status == "approved" then ApprovedKind else if status == "rejected" then RejectedKind else OtherKind
  }

  /** `getStatusColor`. */
  function StatusColor(status: string): (c: string)
    ensures KindOf(status) == ApprovedKind ==> c == "bg-green-100 text-green-800 border-green-200"
    ensures KindOf(status) == RejectedKind ==> c == "bg-red-100 text-red-800 border-red-200"
    ensures KindOf(status) == OtherKind ==> c == "bg-yellow-100 text-yellow-800 border-yellow-200"
  {
    if status == "approved" then "bg-green-100 text-green-800 border-green-200"
    else if status == "rejected" then "bg-red-100 text-red-800 border-red-200"
    else "bg-yellow-100 text-yellow-800 border-yellow-200"
  }

  /** The icons `getStatusIcon` picks. */
  datatype Icon = CheckCircle | XCircle | Clock

  function StatusIcon(status: string): (i: Icon)
    ensures status == "approved" ==> i == CheckCircle
    ensures status == "rejected" ==> i == XCircle
    ensures status != "approved" && status != "rejected" ==> i == Clock
  {
    if status == "approved" then CheckCircle else if status == "rejected" then XCircle else Clock
  }

  /** Colour and icon split the statuses the same way: two statuses share a colour exactly
      when they share an icon. */
  lemma ColourAndIconAgree(a: string, b: string)
    ensures StatusColor(a) == StatusColor(b) <==> StatusIcon(a) == StatusIcon(b)
  {
    assert StatusColor(a) == StatusColor(b) <==> KindOf(a) == KindOf(b);
  }

  /** The badge text: the first character upper-cased, the rest unchanged. */
  function Capitalize(s: string): (r: string)
    ensures |r| == |s|
    ensures s != [] ==> r[0] == UpperChar(s[0]) && r[1..] == s[1..]
  {
    if s == [] then [] else [UpperChar(s[0])] + s[1..]
  }

  /** The three statuses the server stores read "Pending", "Approved" and "Rejected". */
  lemma BadgeTexts()
    ensures Capitalize(ProjectStatusName(Pending)) == "Pending"
    ensures Capitalize(ProjectStatusName(Approved)) == "Approved"
    ensures Capitalize(ProjectStatusName(ProjectRejected)) == "Rejected"
  {
  }

  /** Capitalising twice is capitalising once. */
  lemma CapitalizeIdempotent(s: string)
    ensures Capitalize(Capitalize(s)) == Capitalize(s)
  {
  }

  datatype ProjectForm = ProjectForm(title: string, description: string)

  /** After a submit: the modal, the form, whether the list is refetched, the alert shown
      and `submitting`. */
  datatype SubmitOutcome = SubmitOutcome(showModal: bool, form: ProjectForm, refetch: bool,
                                         alert: Option<string>, submitting: bool)

  /** `handleSubmit`: success closes the modal, empties the form and refetches; failure
      alerts and keeps both; `submitting` ends false either way. */
  function Submit(showModal: bool, form: ProjectForm, succeeded: bool): (r: SubmitOutcome)
    ensures !r.submitting
    ensures succeeded ==> !r.showModal && r.form == ProjectForm("", "") && r.refetch && r.alert.None?
    ensures !succeeded ==>
      (r.showModal == showModal && r.form == form && !r.refetch && r.alert == Some("Failed to submit project"))
  {
    if succeeded then SubmitOutcome(false, ProjectForm("", ""), true, None, false)
    else SubmitOutcome(showModal, form, false, Some("Failed to submit project"), false)
  }
}
