/** The application shell: the list of leave requests it holds, how a
    submitted form becomes a new request at the head of that list, and how
    `onUpdateRequest` merges an update into the request with a given id.
    Ids (`uuidv4()`) and clock readings are parameters. */
module App {
  import opened Basics
  import opened LeaveModel
  import opened EmailService
  import opened ApprovalFlow

  const SubmittedNote := "İzin talebi gönderildi"

  /** The record built from the form: the fields copied as they are, the
      workflow at its start, and a one-entry history recording submission. */
  function NewRequest(id: string, data: FormData, submittedAt: string, loggedAt: string): (r: LeaveRequest)
    ensures r.id == id && r.form == data && r.submittedAt == submittedAt
    ensures StateOf(r) == Initial
    ensures |r.flowHistory| == 1
    ensures r.flowHistory[0].step == Submitted && r.flowHistory[0].status == SubmissionCompleted
  {
    LeaveRequest(id, data, Pending, ManagerStep, submittedAt,
                 [Entry(Submitted, loggedAt, SubmissionCompleted, SubmittedNote)])
  }

  /** The result of a submission: the new list, the e-mail attempted, and
      whether it failed (the failure is caught and only logged). */
  datatype Submission = Submission(requests: seq<LeaveRequest>, call: EmailCall, emailFailed: bool)

  /** The new-request handler: prepend, then e-mail the manager with the
      raw form data. The list is updated before the e-mail is attempted, so
      its outcome leaves the list as it is. */
  function HandleNewLeaveRequest(requests: seq<LeaveRequest>, data: FormData, id: string,
                                 submittedAt: string, loggedAt: string, delivered: bool): (s: Submission)
    ensures |s.requests| == |requests| + 1
    ensures s.requests[0] == NewRequest(id, data, submittedAt, loggedAt)
    ensures s.requests[1..] == requests
    ensures s.call.endpoint == InitialRequestEndpoint && s.call.to == data.managerEmail
    ensures s.call.data == FormJson(data)
    ensures s.emailFailed <==> !delivered
  {
    var list := [NewRequest(id, data, submittedAt, loggedAt)] + requests;
    Submission(list, SendInitialRequestEmail(data.managerEmail, FormJson(data)), !delivered)
  }

  /** `onUpdateRequest`: every request with the id gets the update merged
      in; every other request is kept as it is, in place. */
  function HandleUpdateRequest(requests: seq<LeaveRequest>, id: string, updates: Patch): (out: seq<LeaveRequest>)
    ensures |out| == |requests|
    ensures forall k :: 0 <= k < |requests| && requests[k].id != id ==> out[k] == requests[k]
    ensures forall k :: 0 <= k < |requests| && requests[k].id == id ==> out[k] == Merge(requests[k], updates)
  {
    if |requests| == 0 then []
    else
      var head := if requests[0].id == id then Merge(requests[0], updates) else requests[0];
      [head] + HandleUpdateRequest(requests[1..], id, updates)
  }

  /** An update for an id nobody has changes nothing. */
  lemma UpdateUnknownIdIsIdentity(requests: seq<LeaveRequest>, id: string, updates: Patch)
    requires forall k :: 0 <= k < |requests| ==> requests[k].id != id
    ensures HandleUpdateRequest(requests, id, updates) == requests
  {
  }

  /** Updating keeps every id where it was. */
  lemma UpdateKeepsIds(requests: seq<LeaveRequest>, id: string, updates: Patch)
    ensures forall k :: 0 <= k < |requests| ==> HandleUpdateRequest(requests, id, updates)[k].id == requests[k].id
  {
  }

  /** No two requests share an id. */
  predicate UniqueIds(requests: seq<LeaveRequest>) {
    forall a, b :: 0 <= a < b < |requests| ==> requests[a].id != requests[b].id
  }

  /** What one click does to the list, the handler's update being passed to
      `onUpdateRequest`: the list and the e-mail attempted, if any. */
  datatype ActResult = ActResult(requests: seq<LeaveRequest>, call: Option<EmailCall>)

  function Act(requests: seq<LeaveRequest>, id: string, actor: Actor, action: Action,
               now: string, delivered: bool): ActResult
  {
    match HandleApproval(requests, id, actor, action, now, delivered)
    case NoSuchRequest => ActResult(requests, None)
    case DeliveryFailed(call) => ActResult(requests, Some(call))
    case Updated(call, rid, updates) => ActResult(HandleUpdateRequest(requests, rid, updates), Some(call))
  }

  /** A click for an unknown id sends nothing and changes nothing; a click
      whose e-mail fails changes nothing either. */
  lemma ActWithoutEffect(requests: seq<LeaveRequest>, id: string, actor: Actor, action: Action,
                         now: string, delivered: bool)
    ensures (forall k :: 0 <= k < |requests| ==> requests[k].id != id) ==>
      Act(requests, id, actor, action, now, delivered) == ActResult(requests, None)
    ensures !delivered ==> Act(requests, id, actor, action, now, delivered).requests == requests
  {
  }

  /** A click changes no request but the clicked one, and moves none. */
  lemma ActTouchesOnlyTarget(requests: seq<LeaveRequest>, id: string, actor: Actor, action: Action,
                             now: string, delivered: bool)
    ensures var out := Act(requests, id, actor, action, now, delivered).requests;
      && |out| == |requests|
      && forall k :: 0 <= k < |requests| && requests[k].id != id ==> out[k] == requests[k]
  {
  }

  /** A click keeps every id where it was, so unique ids stay unique. */
  lemma ActKeepsIds(requests: seq<LeaveRequest>, id: string, actor: Actor, action: Action,
                    now: string, delivered: bool)
    ensures var out := Act(requests, id, actor, action, now, delivered).requests;
      && |out| == |requests|
      && (forall k :: 0 <= k < |requests| ==> out[k].id == requests[k].id)
      && (UniqueIds(requests) ==> UniqueIds(out))
  {
  }

  /** On the clicked request (ids being unique): the e-mail is the one for
      this request, and once it is delivered the request's history has grown
      by exactly this click's entry with every earlier entry kept in order,
      its state has moved by `Effect`, and its id and data are unchanged. */
  lemma ActOnTarget(requests: seq<LeaveRequest>, k: nat, actor: Actor, action: Action,
                    now: string, delivered: bool)
    requires UniqueIds(requests) && k < |requests|
    ensures var res := Act(requests, requests[k].id, actor, action, now, delivered);
      var before, after := requests[k], res.requests[k];
      && res.call == Some(Notification(before, actor, action))
      && after.id == before.id && after.form == before.form && after.submittedAt == before.submittedAt
      && (delivered ==>
           && |after.flowHistory| == |before.flowHistory| + 1
           && after.flowHistory[..|before.flowHistory|] == before.flowHistory
           && after.flowHistory[|before.flowHistory|] == Entry(ActedBy(actor), now, Took(action), Note(actor, action))
           && StateOf(after) == Effect(StateOf(before), actor, action))
  {
    var id := requests[k].id;
    var f := FindIndex(requests, id);
    assert f == Some(k);
  }

  /** Every request in the list is in one of the four states the buttons
      lead through. */
  predicate AllConsistent(requests: seq<LeaveRequest>) {
    forall k :: 0 <= k < |requests| ==> Consistent(StateOf(requests[k]))
  }

  /** Submitting with a fresh id keeps ids unique and states consistent,
      each independently of the other. */
  lemma SubmissionKeepsInvariant(requests: seq<LeaveRequest>, data: FormData, id: string,
                                 submittedAt: string, loggedAt: string, delivered: bool)
    requires forall k :: 0 <= k < |requests| ==> requests[k].id != id
    ensures var out := HandleNewLeaveRequest(requests, data, id, submittedAt, loggedAt, delivered).requests;
      && (UniqueIds(requests) ==> UniqueIds(out))
      && (AllConsistent(requests) ==> AllConsistent(out))
  {
    var out := HandleNewLeaveRequest(requests, data, id, submittedAt, loggedAt, delivered).requests;
    assert forall k :: 1 <= k < |out| ==> out[k] == requests[k - 1];
  }

  /** A click offered by the view (its node is the active one) keeps ids
      unique and every request in one of the four states the buttons lead
      through. */
  lemma OfferedActKeepsInvariant(requests: seq<LeaveRequest>, id: string, actor: Actor, action: Action,
                                 now: string, delivered: bool)
    requires UniqueIds(requests) && AllConsistent(requests)
    requires forall k :: 0 <= k < |requests| && requests[k].id == id ==> IsActive(StateOf(requests[k]), actor)
    ensures var out := Act(requests, id, actor, action, now, delivered).requests;
      UniqueIds(out) && AllConsistent(out)
  {
    var out := Act(requests, id, actor, action, now, delivered).requests;
    ActTouchesOnlyTarget(requests, id, actor, action, now, delivered);
    forall k | 0 <= k < |requests| && requests[k].id == id
      ensures Consistent(StateOf(out[k])) && out[k].id == id
    {
      ActOnTarget(requests, k, actor, action, now, delivered);
      HandlerFollowsTable(StateOf(requests[k]), actor, action);
    }
  }

  /** Two clicks in flight at once. The buttons stay on screen while a
      click's e-mail is awaited, so the manager can press Reject and then
      Approve before either update lands; both handlers read the request
      at pending/manager, both pass `isActive`, and if the rejection's
      update is merged first the approval's overwrites its step: the
      request ends rejected at the director's step, a state no sequence of
      one-at-a-time clicks reaches, and the rejection's history entry is
      lost. */
  lemma OverlappingClicksReachRejectedAtDirector(requests: seq<LeaveRequest>, k: nat, now1: string, now2: string)
    requires UniqueIds(requests) && k < |requests| && StateOf(requests[k]) == Initial
    ensures var id := requests[k].id;
      var reject := HandleApproval(requests, id, Manager, Reject, now1, true);
      var approve := HandleApproval(requests, id, Manager, Approve, now2, true);
      && IsActive(StateOf(requests[k]), Manager)
      && reject.Updated? && approve.Updated?
      && var out := HandleUpdateRequest(HandleUpdateRequest(requests, id, reject.updates), id, approve.updates);
         && StateOf(out[k]) == FlowState(Rejected, DirectorStep)
         && !Consistent(StateOf(out[k]))
         && |out[k].flowHistory| == |requests[k].flowHistory| + 1
  {
    var id := requests[k].id;
    assert FindIndex(requests, id) == Some(k);
  }
}
