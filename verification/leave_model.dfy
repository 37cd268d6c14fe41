/** The leave request and the values it is built from: the two enumerations
    the workflow runs on (`status` and `currentStep`), the two approver
    roles, the two actions, the audit trail, the submission form and the
    partial update that `onUpdateRequest` merges into a request. */
module LeaveModel {
  import opened Basics

  /** `status`: 'pending' | 'approved' | 'rejected'. */
  datatype Status = Pending | Approved | Rejected

  /** `currentStep`: 'manager' | 'director' | 'completed' | 'rejected'. */
  datatype Step = ManagerStep | DirectorStep | CompletedStep | RejectedStep

  /** The approver whose node a button belongs to: the `step` argument of
      the approval handler, 'manager' or 'director'. */
  datatype Actor = Manager | Director

  /** The `action` argument of the approval handler: 'approved' | 'rejected'. */
  datatype Action = Approve | Reject

  /** The step of the workflow an approver's node stands for. */
  function StepOf(a: Actor): (s: Step)
    ensures s == ManagerStep || s == DirectorStep
  {
    match a
    case Manager => ManagerStep
    case Director => DirectorStep
  }

  /** `step` of a history entry: 'submitted', 'manager' or 'director'. */
  datatype EntryStep = Submitted | ActedBy(actor: Actor)

  /** `status` of a history entry: 'completed' for the submission, else the
      action taken. */
  datatype EntryStatus = SubmissionCompleted | Took(action: Action)

  /** One `flowHistory` element. */
  datatype Entry = Entry(step: EntryStep, timestamp: string, status: EntryStatus, note: string)

  /** The seven fields of the submission form. */
  datatype FormData = FormData(
    employeeName: string,
    employeeEmail: string,
    startDate: string,
    endDate: string,
    reason: string,
    managerEmail: string,
    directorEmail: string)

  /** A stored leave request: its id, the form fields, the workflow state,
      the submission time and the audit trail. */
  datatype LeaveRequest = LeaveRequest(
    id: string,
    form: FormData,
    status: Status,
    currentStep: Step,
    submittedAt: string,
    flowHistory: seq<Entry>)

  /** The `updates` object handed to `onUpdateRequest`; a key that is
      absent is `None`. The approval handler is the only caller, and it
      only ever sets these three keys. */
  datatype Patch = Patch(
    flowHistory: Option<seq<Entry>>,
    currentStep: Option<Step>,
    status: Option<Status>)

  /** `{ ...request, ...updates }`: present keys win, absent keys keep the
      request's value, and the id and form fields are never touched. */
  function Merge(r: LeaveRequest, u: Patch): (m: LeaveRequest)
    ensures m.id == r.id && m.form == r.form && m.submittedAt == r.submittedAt
    ensures m.flowHistory == (if u.flowHistory.Some? then u.flowHistory.value else r.flowHistory)
    ensures m.currentStep == (if u.currentStep.Some? then u.currentStep.value else r.currentStep)
    ensures m.status == (if u.status.Some? then u.status.value else r.status)
  {
    var m := r.(flowHistory := if u.flowHistory.Some? then u.flowHistory.value else r.flowHistory);
    var m := m.(currentStep := if u.currentStep.Some? then u.currentStep.value else r.currentStep);
    m.(status := if u.status.Some? then u.status.value else r.status)
  }

  /** A request's data as the JSON object the browser posts: the seven
      form fields under their form names. */
  function FormJson(f: FormData): (j: Json)
    ensures j.Keys == {"employeeName", "employeeEmail", "startDate", "endDate",
                       "reason", "managerEmail", "directorEmail"}
    ensures j["employeeName"] == f.employeeName && j["employeeEmail"] == f.employeeEmail
    ensures j["startDate"] == f.startDate && j["endDate"] == f.endDate && j["reason"] == f.reason
    ensures j["managerEmail"] == f.managerEmail && j["directorEmail"] == f.directorEmail
  {
    map["employeeName" := f.employeeName, "employeeEmail" := f.employeeEmail,
        "startDate" := f.startDate, "endDate" := f.endDate, "reason" := f.reason,
        "managerEmail" := f.managerEmail, "directorEmail" := f.directorEmail]
  }
}
