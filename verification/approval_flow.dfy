/** The approval screen: how a click on Approve or Reject turns into one
    e-mail and one update of the request, which node offers the buttons,
    which `(status, currentStep)` pairs can ever be on screen, and how the
    nodes and edges of the diagram derive their status from that pair. */
module ApprovalFlow {
  import opened Basics
  import opened LeaveModel
  import opened EmailService

  /** `requests.find(req => req.id === id)`: the index of the first request
      carrying the id stands in for the object `find` returns, and `None`
      for `undefined` when no request does. */
  function FindIndex(requests: seq<LeaveRequest>, id: string): (r: Option<nat>)
    ensures r.Some? ==> r.value < |requests| && requests[r.value].id == id
    ensures r.Some? ==> forall m :: 0 <= m < r.value ==> requests[m].id != id
    ensures r.None? <==> forall k :: 0 <= k < |requests| ==> requests[k].id != id
  {
    if |requests| == 0 then None
    else if requests[0].id == id then Some(0)
    else match FindIndex(requests[1..], id)
      case None => None
      case Some(k) => Some(k + 1)
  }

  /** The note of a history entry: who acted, and how. */
  function Note(actor: Actor, action: Action): string {
    (if actor == Manager then "Amir" else "Üst amir")
    + " tarafından "
    + (if action == Approve then "onaylandı" else "reddedildi")
  }

  /** The `currentStep` the handler writes for an action. */
  function NextStep(actor: Actor, action: Action): Step {
    match (actor, action)
    case (Manager, Approve) => DirectorStep
    case (Director, Approve) => CompletedStep
    case (Director, Reject) => ManagerStep
    case (Manager, Reject) => RejectedStep
  }

  /** The `status` the handler writes for an action, `None` when it leaves
      `status` out of the update. */
  function NextStatus(actor: Actor, action: Action): Option<Status> {
    match (actor, action)
    case (Manager, Approve) => None
    case (Director, Approve) => Some(Approved)
    case (Director, Reject) => None
    case (Manager, Reject) => Some(Rejected)
  }

  /** The e-mail the handler sends for an action on request `r`. */
  function Notification(r: LeaveRequest, actor: Actor, action: Action): EmailCall {
    var f := r.form;
    var base := map["employeeName" := f.employeeName, "startDate" := f.startDate, "endDate" := f.endDate];
    match (actor, action)
    case (Manager, Approve) =>
      SendApprovalEmail(f.directorEmail, base["reason" := f.reason]["step" := "director"])
    case (Director, Approve) =>
      SendNotificationEmail(f.employeeEmail, base["status" := "approved"])
    case (Director, Reject) =>
      SendRejectionEmail(f.managerEmail, base["rejectedBy" := "director"])
    case (Manager, Reject) =>
      SendNotificationEmail(f.employeeEmail, base["status" := "rejected"])
  }

  /** What one click leads to. */
  datatype ApprovalOutcome =
    | NoSuchRequest                                            // returned before doing anything
    | DeliveryFailed(call: EmailCall)                          // the awaited e-mail threw
    | Updated(call: EmailCall, requestId: string, updates: Patch)  // onUpdateRequest(requestId, updates)

  /** The approval handler. `actor` and `action` are those bound to the
      clicked button, `now` the clock reading for the history entry, and
      `delivered` whether the e-mail client call returned rather than threw.
      The handler itself does not compare `actor` with `currentStep`: that
      guard is the view's (see `IsActive`). */
  function HandleApproval(requests: seq<LeaveRequest>, id: string, actor: Actor, action: Action,
                          now: string, delivered: bool): (o: ApprovalOutcome)
    ensures o.NoSuchRequest? <==> forall k :: 0 <= k < |requests| ==> requests[k].id != id
    ensures o.Updated? <==> !o.NoSuchRequest? && delivered
    ensures o.Updated? ==> o.requestId == id
    ensures !o.NoSuchRequest? ==>
      var r := requests[FindIndex(requests, id).value];
      && o.call == Notification(r, actor, action)
      && (o.Updated? ==>
           && o.updates.flowHistory == Some(r.flowHistory + [Entry(ActedBy(actor), now, Took(action), Note(actor, action))])
           && o.updates.currentStep == Some(NextStep(actor, action))
           && o.updates.status == NextStatus(actor, action))
  {
    match FindIndex(requests, id)
    case None => NoSuchRequest
    case Some(k) =>
      var r := requests[k];
      var entry := Entry(ActedBy(actor), now, Took(action), Note(actor, action));
      var updates := Patch(Some(r.flowHistory + [entry]), Some(NextStep(actor, action)), NextStatus(actor, action));
      var call := Notification(r, actor, action);
      if delivered then Updated(call, id, updates) else DeliveryFailed(call)
  }

  /** The effect of each of the four button handlers, branch by branch:
      who is e-mailed, through which route, with which marker in the data,
      and what the update does to `currentStep` and `status`. */
  lemma HandlerBranches(r: LeaveRequest, actor: Actor, action: Action)
    ensures var c := Notification(r, actor, action);
      match (actor, action)
      case (Manager, Approve) =>
        && c.endpoint == ApprovalEndpoint && c.to == r.form.directorEmail
        && HasValue(c.data, "step", "director") && HasValue(c.data, "reason", r.form.reason)
        && NextStep(actor, action) == DirectorStep && NextStatus(actor, action) == None
      case (Director, Approve) =>
        && c.endpoint == NotificationEndpoint && c.to == r.form.employeeEmail
        && HasValue(c.data, "status", "approved")
        && NextStep(actor, action) == CompletedStep && NextStatus(actor, action) == Some(Approved)
      case (Director, Reject) =>
        && c.endpoint == RejectionEndpoint && c.to == r.form.managerEmail
        && HasValue(c.data, "rejectedBy", "director")
        && NextStep(actor, action) == ManagerStep && NextStatus(actor, action) == None
      case (Manager, Reject) =>
        && c.endpoint == NotificationEndpoint && c.to == r.form.employeeEmail
        && HasValue(c.data, "status", "rejected")
        && NextStep(actor, action) == RejectedStep && NextStatus(actor, action) == Some(Rejected)
  {
  }

  /** Every e-mail of the handler names the employee and the leave dates. */
  lemma NotificationCarriesRequest(r: LeaveRequest, actor: Actor, action: Action)
    ensures var d := Notification(r, actor, action).data;
      && HasValue(d, "employeeName", r.form.employeeName)
      && HasValue(d, "startDate", r.form.startDate)
      && HasValue(d, "endDate", r.form.endDate)
  {
  }

  // ----- The guard and the states it keeps the workflow in -----

  /** The pair the workflow runs on. */
  datatype FlowState = FlowState(status: Status, step: Step)

  function StateOf(r: LeaveRequest): FlowState {
    FlowState(r.status, r.currentStep)
  }

  /** The state of every new request. */
  const Initial := FlowState(Pending, ManagerStep)

  /** `isActive` of an approver's node: its buttons are rendered exactly
      when its step is the current one. */
  predicate IsActive(s: FlowState, actor: Actor) {
    s.step == StepOf(actor)
  }

  /** The state after the handler's update is merged, whether or not the
      action was offered. */
  function Effect(s: FlowState, actor: Actor, action: Action): FlowState {
    var status := NextStatus(actor, action);
    FlowState(if status.Some? then status.value else s.status, NextStep(actor, action))
  }

  /** Merging the handler's update moves the request's state by `Effect`. */
  lemma MergeFollowsEffect(r: LeaveRequest, requests: seq<LeaveRequest>, actor: Actor, action: Action, now: string)
    requires HandleApproval(requests, r.id, actor, action, now, true).Updated?
    requires r == requests[FindIndex(requests, r.id).value]
    ensures StateOf(Merge(r, HandleApproval(requests, r.id, actor, action, now, true).updates))
         == Effect(StateOf(r), actor, action)
  {
  }

  /** The four pairs the buttons lead a request through. */
  predicate Consistent(s: FlowState) {
    || s == FlowState(Pending, ManagerStep)
    || s == FlowState(Pending, DirectorStep)
    || s == FlowState(Approved, CompletedStep)
    || s == FlowState(Rejected, RejectedStep)
  }

  /** The intended approval table, written independently of the handler:
      the four rows, and nothing for any other state. */
  function Table(s: FlowState, action: Action): Option<FlowState> {
    if s == FlowState(Pending, ManagerStep) then
      Some(if action == Approve then FlowState(Pending, DirectorStep) else FlowState(Rejected, RejectedStep))
    else if s == FlowState(Pending, DirectorStep) then
      Some(if action == Approve then FlowState(Approved, CompletedStep) else FlowState(Pending, ManagerStep))
    else None
  }

  /** From one of the four states, the offered button does exactly what the
      intended table says, and the table has a row exactly where some
      button is offered. */
  lemma HandlerFollowsTable(s: FlowState, actor: Actor, action: Action)
    requires Consistent(s)
    ensures IsActive(s, actor) ==> Table(s, action) == Some(Effect(s, actor, action))
    ensures Table(s, action).Some? <==> IsActive(s, Manager) || IsActive(s, Director)
  {
  }

  /** The state after a sequence of clicks, each of which must be on a
      node whose buttons are shown; `None` if some click is not offered. */
  function Replay(s: FlowState, clicks: seq<(Actor, Action)>): Option<FlowState>
    decreases |clicks|
  {
    if |clicks| == 0 then Some(s)
    else if !IsActive(s, clicks[0].0) then None
    else Replay(Effect(s, clicks[0].0, clicks[0].1), clicks[1..])
  }

  /** A state some sequence of offered clicks leads to from `Initial`. */
  ghost predicate Reachable(s: FlowState) {
    exists clicks :: Replay(Initial, clicks) == Some(s)
  }

  lemma {:induction false} ReplayKeepsConsistent(s: FlowState, clicks: seq<(Actor, Action)>)
    requires Consistent(s)
    ensures Replay(s, clicks).Some? ==> Consistent(Replay(s, clicks).value)
    decreases |clicks|
  {
    if |clicks| > 0 && IsActive(s, clicks[0].0) {
      ReplayKeepsConsistent(Effect(s, clicks[0].0, clicks[0].1), clicks[1..]);
    }
  }

  /** Under the view's guard, clicks taken one at a time reach exactly the
      four states the buttons lead through. */
  lemma ReachableIffConsistent(s: FlowState)
    ensures Reachable(s) <==> Consistent(s)
  {
    if Reachable(s) {
      var clicks :| Replay(Initial, clicks) == Some(s);
      ReplayKeepsConsistent(Initial, clicks);
    }
    if Consistent(s) {
      if s == Initial {
        assert Replay(Initial, []) == Some(s);
      } else if s == FlowState(Pending, DirectorStep) {
        assert Replay(Initial, [(Manager, Approve)]) == Some(s);
      } else if s == FlowState(Approved, CompletedStep) {
        var clicks := [(Manager, Approve), (Director, Approve)];
        assert clicks[1..] == [(Director, Approve)];
        assert Replay(Initial, clicks) == Some(s);
      } else {
        assert Replay(Initial, [(Manager, Reject)]) == Some(s);
      }
    }
  }

  /** A rejected request never waits on the director. */
  lemma NoRejectedAtDirector(s: FlowState)
    requires Reachable(s)
    ensures !(s.status == Rejected && s.step == DirectorStep)
  {
    ReachableIffConsistent(s);
  }

  /** The two terminal states show no buttons, the others exactly one pair. */
  lemma TerminalStatesOfferNothing(s: FlowState)
    requires Reachable(s)
    ensures s.status != Pending <==> !IsActive(s, Manager) && !IsActive(s, Director)
    ensures !(IsActive(s, Manager) && IsActive(s, Director))
  {
    ReachableIffConsistent(s);
  }

  /** One click at a time, the guard is what keeps the pair consistent: the
      handler alone, clicked for the manager after a rejection, writes
      `rejected` with `director`. */
  lemma UnguardedHandlerReachesRejectedAtDirector()
    ensures var s := Effect(Effect(Initial, Manager, Reject), Manager, Approve);
      s == FlowState(Rejected, DirectorStep) && !Consistent(s)
  {
  }

  /** A director rejection is a bounce-back: the request is pending again at
      the manager, and the manager can approve or reject once more. */
  lemma DirectorRejectBouncesBack()
    ensures Replay(Initial, [(Manager, Approve), (Director, Reject)]) == Some(Initial)
    ensures Replay(Initial, [(Manager, Approve), (Director, Reject), (Manager, Reject)])
         == Some(FlowState(Rejected, RejectedStep))
  {
  }

  // ----- Node and edge status of the diagram -----

  /** The `status` a diagram node shows. */
  datatype NodeStatus = NodePending | NodeCompleted | NodeRejected | NodeWaiting

  /** The manager node's status as the screen computes it. Its third branch
      tests `currentStep === 'manager'` after the first branch has already
      taken that case, so it never yields `NodeRejected`. */
  function ManagerNodeStatusAsWritten(s: FlowState): (n: NodeStatus)
    ensures n != NodeRejected
  {
    if s.step == ManagerStep then NodePending
    else if s.status == Approved || s.step == DirectorStep then NodeCompleted
    else if s.status == Rejected && s.step == ManagerStep then NodeRejected
    else NodePending
  }

  /** After the manager rejects, the manager node as written shows
      'pending' although the request is closed. */
  lemma ManagerNodePendingAfterRejection()
    ensures Replay(Initial, [(Manager, Reject)]) == Some(FlowState(Rejected, RejectedStep))
    ensures ManagerNodeStatusAsWritten(FlowState(Rejected, RejectedStep)) == NodePending
  {
  }

  /** The manager node's status with the rejection branch testing the step
      the handler actually writes on a manager rejection. */
  function ManagerNodeStatus(s: FlowState): NodeStatus {
    if s.step == ManagerStep then NodePending
    else if s.status == Approved || s.step == DirectorStep then NodeCompleted
    else if s.status == Rejected && s.step == RejectedStep then NodeRejected
    else NodePending
  }

  /** On every reachable state the corrected manager node is rejected
      exactly when the request is, done exactly when the manager has
      approved, and pending exactly when it is the manager's turn. */
  lemma ManagerNodeTracksRequest(s: FlowState)
    requires Reachable(s)
    ensures ManagerNodeStatus(s) == NodeRejected <==> s.status == Rejected
    ensures ManagerNodeStatus(s) == NodeCompleted <==> s.step == DirectorStep || s.status == Approved
    ensures ManagerNodeStatus(s) == NodePending <==> IsActive(s, Manager)
  {
    ReachableIffConsistent(s);
  }

  function DirectorNodeStatus(s: FlowState): NodeStatus {
    if s.step == DirectorStep then NodePending
    else if s.status == Approved then NodeCompleted
    else if s.status == Rejected && s.step == DirectorStep then NodeRejected
    else NodeWaiting
  }

  /** The director node as written never shows 'rejected', on any state:
      its third branch re-tests the step the first branch already took. */
  lemma DirectorNodeNeverRejected(s: FlowState)
    ensures DirectorNodeStatus(s) != NodeRejected
    ensures DirectorNodeStatus(s) == NodePending <==> s.step == DirectorStep
  {
  }

  function CompletedNodeStatus(s: FlowState): NodeStatus {
    if s.status == Approved then NodeCompleted
    else if s.status == Rejected then NodeRejected
    else NodeWaiting
  }

  /** The ids of the extra edges drawn for a rejected request. */
  function RejectionEdges(s: FlowState): seq<string> {
    if s.status != Rejected then []
    else if s.step == ManagerStep then ["e-reject-manager"]
    else if s.step == DirectorStep then ["e-reject-director", "e-return-manager"]
    else []
  }

  /** Whether the manager-to-director and director-to-completed edges are
      drawn solid (green) rather than dashed. */
  function ForwardEdgesSolid(s: FlowState): (bool, bool) {
    (s.step == DirectorStep || s.status == Approved, s.status == Approved)
  }

  /** What the diagram shows on reachable states: the director node is
      never 'rejected', the final node reflects the status, the 'rejected-
      return' node (shown when the status is rejected) never gets an edge,
      and the forward edges are solid once their approval happened. */
  lemma DiagramOnReachableStates(s: FlowState)
    requires Reachable(s)
    ensures DirectorNodeStatus(s) != NodeRejected
    ensures DirectorNodeStatus(s) == NodePending <==> IsActive(s, Director)
    ensures CompletedNodeStatus(s) == NodeWaiting <==> s.status == Pending
    ensures RejectionEdges(s) == []
    ensures ForwardEdgesSolid(s).0 <==> s.step in {DirectorStep, CompletedStep}
    ensures ForwardEdgesSolid(s).1 <==> s.step == CompletedStep
  {
    ReachableIffConsistent(s);
  }
}
