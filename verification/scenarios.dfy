/** Whole runs through the application: a form submitted, then a sequence
    of clicks on the new request's offered buttons with every e-mail
    delivered, and which template the e-mail server renders for each
    e-mail the screen sends. */
module Scenarios {
  import opened Basics
  import opened LeaveModel
  import opened EmailService
  import opened ApprovalFlow
  import opened App
  import opened LeaveRequestForm
  import opened Server

  /** The clicks on request `id`, one after the other, the i-th stamped
      with `times[i]` and every e-mail delivered: the list afterwards and
      the e-mails sent, in order. */
  function Drive(requests: seq<LeaveRequest>, id: string, clicks: seq<(Actor, Action)>,
                 times: seq<string>): (r: (seq<LeaveRequest>, seq<EmailCall>))
    requires |times| == |clicks|
    ensures |r.0| == |requests|
    ensures |r.1| <= |clicks|
    decreases |clicks|
  {
    if |clicks| == 0 then (requests, [])
    else
      var res := Act(requests, id, clicks[0].0, clicks[0].1, times[0], true);
      var rest := Drive(res.requests, id, clicks[1..], times[1..]);
      (rest.0, (if res.call.Some? then [res.call.value] else []) + rest.1)
  }

  /** One step of `Drive`: the first click, then the rest. */
  lemma DriveUnfold(requests: seq<LeaveRequest>, id: string, clicks: seq<(Actor, Action)>, times: seq<string>)
    requires |times| == |clicks| > 0
    ensures var res := Act(requests, id, clicks[0].0, clicks[0].1, times[0], true);
      var rest := Drive(res.requests, id, clicks[1..], times[1..]);
      && Drive(requests, id, clicks, times).0 == rest.0
      && Drive(requests, id, clicks, times).1 == (if res.call.Some? then [res.call.value] else []) + rest.1
  {
  }

  /** Clicks on one request of a list with unique ids leave every other
      request, every id, and the request's form as they were. */
  lemma {:induction false} DriveTouchesOnlyTarget(requests: seq<LeaveRequest>, k: nat,
                                                  clicks: seq<(Actor, Action)>, times: seq<string>)
    requires UniqueIds(requests) && k < |requests| && |times| == |clicks|
    ensures var out := Drive(requests, requests[k].id, clicks, times).0;
      && |out| == |requests|
      && UniqueIds(out)
      && (forall m :: 0 <= m < |requests| && m != k ==> out[m] == requests[m])
      && out[k].id == requests[k].id && out[k].form == requests[k].form
    decreases |clicks|
  {
    if |clicks| > 0 {
      var id := requests[k].id;
      DriveUnfold(requests, id, clicks, times);
      ActOnTarget(requests, k, clicks[0].0, clicks[0].1, times[0], true);
      ActTouchesOnlyTarget(requests, id, clicks[0].0, clicks[0].1, times[0], true);
      ActKeepsIds(requests, id, clicks[0].0, clicks[0].1, times[0], true);
      var mid := Act(requests, id, clicks[0].0, clicks[0].1, times[0], true).requests;
      DriveTouchesOnlyTarget(mid, k, clicks[1..], times[1..]);
    }
  }

  /** Offered clicks on one request of a list with unique ids: that
      request ends where `Replay` says, with one history entry per click
      after its earlier ones. */
  lemma {:induction false} DriveFollowsReplay(requests: seq<LeaveRequest>, k: nat,
                                              clicks: seq<(Actor, Action)>, times: seq<string>)
    requires UniqueIds(requests) && k < |requests| && |times| == |clicks|
    requires Replay(StateOf(requests[k]), clicks).Some?
    ensures var out := Drive(requests, requests[k].id, clicks, times).0;
      && StateOf(out[k]) == Replay(StateOf(requests[k]), clicks).value
      && |out[k].flowHistory| == |requests[k].flowHistory| + |clicks|
      && out[k].flowHistory[..|requests[k].flowHistory|] == requests[k].flowHistory
    decreases |clicks|
  {
    DriveTouchesOnlyTarget(requests, k, clicks, times);
    if |clicks| > 0 {
      var id := requests[k].id;
      DriveUnfold(requests, id, clicks, times);
      ActOnTarget(requests, k, clicks[0].0, clicks[0].1, times[0], true);
      ActKeepsIds(requests, id, clicks[0].0, clicks[0].1, times[0], true);
      var mid := Act(requests, id, clicks[0].0, clicks[0].1, times[0], true).requests;
      DriveFollowsReplay(mid, k, clicks[1..], times[1..]);
      var out := Drive(mid, id, clicks[1..], times[1..]).0;
      var h := requests[k].flowHistory;
      assert out[k].flowHistory[..|mid[k].flowHistory|] == mid[k].flowHistory;
      assert out[k].flowHistory[..|h|] == mid[k].flowHistory[..|h|];
    }
  }

  /** Offered clicks on one request each send that click's e-mail for the
      request, in order. */
  lemma {:induction false} DriveSendsNotifications(requests: seq<LeaveRequest>, k: nat,
                                                   clicks: seq<(Actor, Action)>, times: seq<string>)
    requires UniqueIds(requests) && k < |requests| && |times| == |clicks|
    ensures var calls := Drive(requests, requests[k].id, clicks, times).1;
      && |calls| == |clicks|
      && (forall i :: 0 <= i < |clicks| ==> calls[i] == Notification(requests[k], clicks[i].0, clicks[i].1))
    decreases |clicks|
  {
    if |clicks| > 0 {
      var id := requests[k].id;
      var res := Act(requests, id, clicks[0].0, clicks[0].1, times[0], true);
      var mid := res.requests;
      DriveUnfold(requests, id, clicks, times);
      ClickSendsNotification(requests, k, clicks[0].0, clicks[0].1, times[0]);
      DriveSendsNotifications(mid, k, clicks[1..], times[1..]);
      var rest := Drive(mid, id, clicks[1..], times[1..]).1;
      var calls := Drive(requests, id, clicks, times).1;
      assert calls == [Notification(requests[k], clicks[0].0, clicks[0].1)] + rest;
      forall i | 1 <= i < |clicks|
        ensures calls[i] == Notification(requests[k], clicks[i].0, clicks[i].1)
      {
        assert calls[i] == rest[i - 1];
        assert clicks[1..][i - 1] == clicks[i];
        SameFormSameNotification(mid[k], requests[k], clicks[i].0, clicks[i].1);
      }
    }
  }

  /** A delivered click on a request of a list with unique ids sends that
      request's e-mail and keeps the list's ids and the request's form. */
  lemma ClickSendsNotification(requests: seq<LeaveRequest>, k: nat, actor: Actor, action: Action, now: string)
    requires UniqueIds(requests) && k < |requests|
    ensures var res := Act(requests, requests[k].id, actor, action, now, true);
      && res.call == Some(Notification(requests[k], actor, action))
      && |res.requests| == |requests|
      && UniqueIds(res.requests)
      && res.requests[k].id == requests[k].id && res.requests[k].form == requests[k].form
  {
    ActOnTarget(requests, k, actor, action, now, true);
    ActKeepsIds(requests, requests[k].id, actor, action, now, true);
  }

  /** The handler's e-mail depends on the request's form data only. */
  lemma SameFormSameNotification(r1: LeaveRequest, r2: LeaveRequest, actor: Actor, action: Action)
    requires r1.form == r2.form
    ensures Notification(r1, actor, action) == Notification(r2, actor, action)
  {
  }

  /** The template the e-mail server renders for an e-mail call. */
  function Served(c: EmailCall): Template {
    SelectTemplate(c.endpoint, c.data)
  }

  /** The template each button's e-mail ends in, as the workflow intends:
      the director is asked to approve, the employee told of approval, the
      manager told of the bounce-back, the employee told of rejection with
      'Reddedildi' in the body. The subject always names the employee. */
  function IntendedKind(actor: Actor, action: Action): TemplateKind {
    match (actor, action)
    case (Manager, Approve) => ApprovalRequest
    case (Director, Approve) => ApprovalNotification
    case (Director, Reject) => ManagerRejectionNotice
    case (Manager, Reject) => RejectionNotification
  }

  /** Who each button's e-mail is for: the next approver when the request
      moves on, the employee when it is decided, the manager when the
      director sends it back. */
  function IntendedRecipient(f: FormData, actor: Actor, action: Action): string {
    match (actor, action)
    case (Manager, Approve) => f.directorEmail
    case (Director, Approve) => f.employeeEmail
    case (Director, Reject) => f.managerEmail
    case (Manager, Reject) => f.employeeEmail
  }

  /** Client and server agree: the e-mail each button sends goes to the
      intended person, is rendered with the intended template, and its
      subject ends with the employee's name. */
  lemma NotificationServedAsIntended(r: LeaveRequest, actor: Actor, action: Action)
    ensures Notification(r, actor, action).to == IntendedRecipient(r.form, actor, action)
    ensures var t := Served(Notification(r, actor, action));
      && t.kind == IntendedKind(actor, action)
      && t.subject == SubjectPrefix(t.kind) + r.form.employeeName
      && (t.kind == RejectionNotification ==> t.statusLine == Some("Reddedildi"))
  {
    var c := Notification(r, actor, action);
    HandlerBranches(r, actor, action);
    NotificationCarriesRequest(r, actor, action);
    SelectTemplateDispatch(c.endpoint, c.data);
    if (actor, action) == (Manager, Reject) {
      RejectionStatusLine(c.data);
    }
  }

  /** The submission e-mail asks the manager to approve, under the
      employee's name. */
  lemma SubmissionServedAsIntended(requests: seq<LeaveRequest>, data: FormData, id: string,
                                   submittedAt: string, loggedAt: string, delivered: bool)
    ensures var c := HandleNewLeaveRequest(requests, data, id, submittedAt, loggedAt, delivered).call;
      && c.to == data.managerEmail
      && Served(c).kind == ApprovalRequest
      && Served(c).subject == SubjectPrefix(ApprovalRequest) + data.employeeName
  {
  }

  /** Submitting with a fresh id and then clicking through `clicks`: the new
      request sits at the head, the rest of the list is untouched, and the
      new request ends where `Replay` from the initial state says. */
  lemma SubmitThenDrive(requests: seq<LeaveRequest>, data: FormData, id: string,
                        submittedAt: string, loggedAt: string,
                        clicks: seq<(Actor, Action)>, times: seq<string>)
    requires UniqueIds(requests) && forall m :: 0 <= m < |requests| ==> requests[m].id != id
    requires |times| == |clicks| && Replay(Initial, clicks).Some?
    ensures var list := HandleNewLeaveRequest(requests, data, id, submittedAt, loggedAt, true).requests;
      var out := Drive(list, id, clicks, times).0;
      && |out| == |requests| + 1
      && out[1..] == requests
      && out[0].id == id && out[0].form == data
      && StateOf(out[0]) == Replay(Initial, clicks).value
      && |out[0].flowHistory| == 1 + |clicks|
  {
    var list := HandleNewLeaveRequest(requests, data, id, submittedAt, loggedAt, true).requests;
    assert list[0].id == id && list[0].form == data && StateOf(list[0]) == Initial;
    assert |list[0].flowHistory| == 1;
    SubmissionKeepsInvariant(requests, data, id, submittedAt, loggedAt, true);
    DriveTouchesOnlyTarget(list, 0, clicks, times);
    DriveFollowsReplay(list, 0, clicks, times);
    var out := Drive(list, id, clicks, times).0;
    assert forall m :: 1 <= m < |out| ==> out[m] == list[m];
    assert out[1..] == list[1..];
  }

  /** After a submission, each click on the new request sends one e-mail,
      rendered with the template intended for that click and under the
      submitting employee's name. */
  lemma SubmitThenDriveEmails(requests: seq<LeaveRequest>, data: FormData, id: string,
                              submittedAt: string, loggedAt: string,
                              clicks: seq<(Actor, Action)>, times: seq<string>)
    requires UniqueIds(requests) && forall m :: 0 <= m < |requests| ==> requests[m].id != id
    requires |times| == |clicks|
    ensures var list := HandleNewLeaveRequest(requests, data, id, submittedAt, loggedAt, true).requests;
      var calls := Drive(list, id, clicks, times).1;
      && |calls| == |clicks|
      && (forall i :: 0 <= i < |clicks| ==>
            && calls[i].to == IntendedRecipient(data, clicks[i].0, clicks[i].1)
            && Served(calls[i]).kind == IntendedKind(clicks[i].0, clicks[i].1)
            && Served(calls[i]).subject == SubjectPrefix(Served(calls[i]).kind) + data.employeeName)
  {
    var list := HandleNewLeaveRequest(requests, data, id, submittedAt, loggedAt, true).requests;
    assert list[0].id == id && list[0].form == data;
    SubmissionKeepsInvariant(requests, data, id, submittedAt, loggedAt, true);
    DriveSendsNotifications(list, 0, clicks, times);
    var calls := Drive(list, id, clicks, times).1;
    forall i | 0 <= i < |clicks|
      ensures && calls[i].to == IntendedRecipient(data, clicks[i].0, clicks[i].1)
              && Served(calls[i]).kind == IntendedKind(clicks[i].0, clicks[i].1)
              && Served(calls[i]).subject == SubjectPrefix(Served(calls[i]).kind) + data.employeeName
    {
      NotificationServedAsIntended(list[0], clicks[i].0, clicks[i].1);
    }
  }

  /** Full approval (demo scenario 1): manager and director approve; the
      request is approved with three history entries, and the three e-mails
      go to manager, director and employee. */
  lemma FullApproval(requests: seq<LeaveRequest>, data: FormData, id: string,
                     submittedAt: string, loggedAt: string, t1: string, t2: string)
    requires UniqueIds(requests) && forall m :: 0 <= m < |requests| ==> requests[m].id != id
    ensures var sub := HandleNewLeaveRequest(requests, data, id, submittedAt, loggedAt, true);
      var (out, calls) := Drive(sub.requests, id, [(Manager, Approve), (Director, Approve)], [t1, t2]);
      && StateOf(out[0]) == FlowState(Approved, CompletedStep)
      && |out[0].flowHistory| == 3
      && out[1..] == requests
      && [sub.call.to, calls[0].to, calls[1].to] == [data.managerEmail, data.directorEmail, data.employeeEmail]
      && Served(calls[0]).kind == ApprovalRequest && Served(calls[1]).kind == ApprovalNotification
  {
    var clicks := [(Manager, Approve), (Director, Approve)];
    assert clicks[1..] == [(Director, Approve)];
    assert Replay(Initial, clicks) == Some(FlowState(Approved, CompletedStep));
    SubmitThenDrive(requests, data, id, submittedAt, loggedAt, clicks, [t1, t2]);
    SubmitThenDriveEmails(requests, data, id, submittedAt, loggedAt, clicks, [t1, t2]);
  }

  /** Manager rejection (demo scenario 2): the request is closed as
      rejected with two history entries, and the employee is told so. */
  lemma ManagerRejection(requests: seq<LeaveRequest>, data: FormData, id: string,
                         submittedAt: string, loggedAt: string, t1: string)
    requires UniqueIds(requests) && forall m :: 0 <= m < |requests| ==> requests[m].id != id
    ensures var sub := HandleNewLeaveRequest(requests, data, id, submittedAt, loggedAt, true);
      var (out, calls) := Drive(sub.requests, id, [(Manager, Reject)], [t1]);
      && StateOf(out[0]) == FlowState(Rejected, RejectedStep)
      && |out[0].flowHistory| == 2
      && |calls| == 1 && calls[0].to == data.employeeEmail
      && Served(calls[0]).kind == RejectionNotification
      && Served(calls[0]).statusLine == Some("Reddedildi")
  {
    var clicks := [(Manager, Reject)];
    assert Replay(Initial, clicks) == Some(FlowState(Rejected, RejectedStep));
    SubmitThenDrive(requests, data, id, submittedAt, loggedAt, clicks, [t1]);
    SubmitThenDriveEmails(requests, data, id, submittedAt, loggedAt, clicks, [t1]);
    var list := HandleNewLeaveRequest(requests, data, id, submittedAt, loggedAt, true).requests;
    NotificationServedAsIntended(list[0], Manager, Reject);
  }

  /** Director rejection and return (demo scenario 3): the manager
      approves, the director rejects; the manager is told with the
      bounce-back notice, and the request waits on the manager again, still
      pending, with three history entries. */
  lemma BounceBack(requests: seq<LeaveRequest>, data: FormData, id: string,
                   submittedAt: string, loggedAt: string, t1: string, t2: string)
    requires UniqueIds(requests) && forall m :: 0 <= m < |requests| ==> requests[m].id != id
    ensures var list := HandleNewLeaveRequest(requests, data, id, submittedAt, loggedAt, true).requests;
      var r := Drive(list, id, [(Manager, Approve), (Director, Reject)], [t1, t2]);
      && StateOf(r.0[0]) == FlowState(Pending, ManagerStep)
      && |r.0[0].flowHistory| == 3
      && |r.1| == 2
      && r.1[1].to == data.managerEmail && Served(r.1[1]).kind == ManagerRejectionNotice
  {
    var clicks := [(Manager, Approve), (Director, Reject)];
    assert clicks[1..] == [(Director, Reject)];
    assert Replay(Initial, clicks) == Some(Initial);
    SubmitThenDrive(requests, data, id, submittedAt, loggedAt, clicks, [t1, t2]);
    SubmitThenDriveEmails(requests, data, id, submittedAt, loggedAt, clicks, [t1, t2]);
  }

  /** A second round after the bounce-back: manager approves, director
      rejects, manager approves again and the director, whose turn it is
      again, approves; the request is approved with five history entries,
      and the four e-mails go to director, manager, director and employee. */
  lemma SecondRoundApproval(requests: seq<LeaveRequest>, data: FormData, id: string,
                            submittedAt: string, loggedAt: string, times: seq<string>)
    requires UniqueIds(requests) && forall m :: 0 <= m < |requests| ==> requests[m].id != id
    requires |times| == 4
    ensures var list := HandleNewLeaveRequest(requests, data, id, submittedAt, loggedAt, true).requests;
      var r := Drive(list, id, [(Manager, Approve), (Director, Reject), (Manager, Approve), (Director, Approve)], times);
      && StateOf(r.0[0]) == FlowState(Approved, CompletedStep)
      && |r.0[0].flowHistory| == 5
      && r.0[1..] == requests
      && |r.1| == 4
      && [r.1[0].to, r.1[1].to, r.1[2].to, r.1[3].to]
         == [data.directorEmail, data.managerEmail, data.directorEmail, data.employeeEmail]
  {
    var clicks := [(Manager, Approve), (Director, Reject), (Manager, Approve), (Director, Approve)];
    assert clicks[1..] == [(Director, Reject), (Manager, Approve), (Director, Approve)];
    assert clicks[2..] == [(Manager, Approve), (Director, Approve)];
    assert clicks[1..][1..] == clicks[2..];
    var second := [(Manager, Approve), (Director, Approve)];
    assert second[1..] == [(Director, Approve)];
    assert Replay(Initial, second) == Some(FlowState(Approved, CompletedStep));
    assert clicks[2..] == second;
    assert Replay(Initial, clicks) == Some(FlowState(Approved, CompletedStep));
    SubmitThenDrive(requests, data, id, submittedAt, loggedAt, clicks, times);
    SubmitThenDriveEmails(requests, data, id, submittedAt, loggedAt, clicks, times);
  }

  /** The director cannot act first: at the start only the manager's node
      shows buttons, so no run begins with a director click. */
  lemma DirectorCannotActFirst(clicks: seq<(Actor, Action)>)
    requires |clicks| > 0 && clicks[0].0 == Director
    ensures Replay(Initial, clicks) == None
  {
  }

  /** The form and the application together. `browserAccepts` says whether
      the browser's own checks of the inputs (the `min` dates and the
      `type="email"` fields) let the submit event fire; when they do not,
      nothing runs and nothing changes. Once it fires, the application's
      submit handler catches its own e-mail failure, so submitting never
      throws: a form passing every check is handed over, prepended as a new
      request and cleared; any other form adds nothing and is kept. */
  function SubmitForm(requests: seq<LeaveRequest>, f: FormData, browserAccepts: bool, id: string,
                      submittedAt: string, loggedAt: string, delivered: bool): (r: (Option<SubmitOutcome>, seq<LeaveRequest>))
    ensures r.0.Some? <==> browserAccepts
    ensures r.0.Some? ==> (r.0.value.showSuccess <==> ChecksPass(f))
    ensures r.0.Some? ==> r.0.value.data == (if ChecksPass(f) then EmptyForm else f)
    ensures browserAccepts && ChecksPass(f) ==> |r.1| == |requests| + 1 && r.1[0].form == f && r.1[1..] == requests
    ensures !(browserAccepts && ChecksPass(f)) ==> r.1 == requests
  {
    if !browserAccepts then (None, requests)
    else
      ValidIffChecksPass(f);
      var o := HandleSubmit(f, false);
      if o.handedOver.Some? then
        (Some(o), HandleNewLeaveRequest(requests, o.handedOver.value, id, submittedAt, loggedAt, delivered).requests)
      else (Some(o), requests)
  }
}
