# KreaFlow leave approval, modelled in Dafny

KreaFlow is a small annual-leave approval application. An employee fills in
a form: their name and e-mail, the leave dates, a reason, and the e-mails of
their manager (amir) and director (üst amir). The application then does four
things:

- It stores the form as a leave request that is `pending` at the `manager`
  step, and e-mails the manager.
- It draws the request as a diagram whose active node carries Approve and
  Reject buttons.
- On each click it e-mails the director, the manager or the employee,
  depending on the button, then merges an update into the
  request. The update sets the new `currentStep` and `status` and appends
  one audit-trail entry to the history the click handler sees. As written,
  the handler sees the list from when the approval screen was mounted, and
  a click's update lands only after its e-mail returns (see "## Left out"
  and "## Findings"); the model gives each click the current list, one
  click at a time.
- A small e-mail server turns each e-mail call into one of four templates.

The model is functional. Requests, forms and updates are immutable
datatypes. Every handler is a pure function. The clock readings, the fresh
id, and whether an e-mail call returned or threw are parameters.

The model has ten modules:

- `Basics`: the option type, and JSON objects of strings.
- `LeaveModel`: the request, the form, the update and the history entry.
- `JsString`: JavaScript white space, `trim`, and string order.
  - It proves that ISO dates compare as calendar dates.
- `EmailPattern`: the form's `/\S+@\S+\.\S+/.test(v)`.
  - It is computed by one left-to-right scan.
  - It is proved equal to the declarative reading of the regular expression.
- `LeaveRequestForm`: `validateForm`, `handleChange`, `handleSubmit`.
- `EmailService`: the four client calls.
- `ApprovalFlow`: `handleApproval`, the `isActive` guard, reachability, and node and edge status.
- `App`: `handleNewLeaveRequest` and `handleUpdateRequest`.
- `Server`: the templates, route dispatch, `sendEmail` and responses.
- `Scenarios`: whole runs from submission through clicks to the template the server renders.

In these places the model follows the code as written:

- The approval handler itself never checks that the clicking approver's step
  is the current one. The only guard is `isActive` in the view
  (src/components/ApprovalFlow.js:117, :134; src/components/CustomNode.js:163).
  It is modelled as the condition under which a click is offered
  (`ApprovalFlow.IsActive`, `ApprovalFlow.Replay`).
- The e-mail is awaited BEFORE `onUpdateRequest`, and the client rethrows a
  failure. A failed notification therefore means no update at all
  (src/components/ApprovalFlow.js:256-299; src/services/EmailService.js:19).
- The new request is stored BEFORE its e-mail is attempted, and that e-mail's
  failure is caught and only logged (src/App.js:110-118).
- The initial e-mail carries the raw form data, not the stored request.
- A history entry's `status` is the action (`approved`/`rejected`).

## Model

| member | source | states |
|---|---|---|
| ApprovalFlow.FindIndex | src/components/ApprovalFlow.js:237 | returns the first request with the id, and `None` exactly when no request has it |
| ApprovalFlow.HandleApproval | src/components/ApprovalFlow.js:236-300 | an unknown id sends nothing and updates nothing; otherwise the handler's e-mail for that request is sent, and the update is issued exactly when delivery succeeded; the update appends exactly one entry (step, time, action, note) after the old history and sets the step and status of the action |
| ApprovalFlow.HandlerBranches | src/components/ApprovalFlow.js:252-296 | per button: manager approve e-mails the director through the approval route with `step: 'director'` and moves to `director` with status untouched; director approve notifies the employee with `approved` and closes as approved/completed; director reject sends the manager a rejection with `rejectedBy: 'director'` and returns to `manager` with status untouched; manager reject notifies the employee with `rejected` and closes as rejected/rejected |
| ApprovalFlow.NotificationCarriesRequest | src/components/ApprovalFlow.js:256-295 | every e-mail of the handler carries the employee's name and both leave dates |
| ApprovalFlow.MergeFollowsEffect | src/components/ApprovalFlow.js:252-299 | merging the handler's update moves the request's (status, step) pair exactly by the action's effect |
| ApprovalFlow.HandlerFollowsTable | src/components/ApprovalFlow.js:252-297 | from each of the four states the buttons lead through, the offered button does what the intended table `ApprovalFlow.Table` says, and the table has a row exactly where some button is offered |
| ApprovalFlow.ReplayKeepsConsistent | src/components/ApprovalFlow.js:117-136 | clicks offered by the view keep a request within the four states the buttons lead through |
| ApprovalFlow.ReachableIffConsistent | src/components/ApprovalFlow.js:117-136 | from pending/manager, exactly pending/manager, pending/director, approved/completed and rejected/rejected are reachable through offered clicks |
| ApprovalFlow.NoRejectedAtDirector | src/components/ApprovalFlow.js:130 | rejected with step `director`, the pair the director node's `rejected` branch names, never occurs under the guard when each click's update lands before the next click (that branch is dead in any case: see ApprovalFlow.DirectorNodeNeverRejected) |
| ApprovalFlow.DirectorNodeNeverRejected | src/components/ApprovalFlow.js:128-131 | on every state, reachable or not, the director node as written never shows `rejected`: its first branch already takes `currentStep === 'director'`; it is pending exactly at the director's step |
| ApprovalFlow.TerminalStatesOfferNothing | src/components/CustomNode.js:163 | on reachable states no buttons are shown exactly when the status is no longer pending, and never on both nodes |
| ApprovalFlow.UnguardedHandlerReachesRejectedAtDirector | src/components/ApprovalFlow.js:252-288 | without the view's guard, a manager approval after a manager rejection writes rejected/director: with clicks taken one at a time, the guard is what keeps states consistent |
| ApprovalFlow.DirectorRejectBouncesBack | src/components/ApprovalFlow.js:275-284 | a director rejection returns the request to pending/manager, and the manager can decide again |
| ApprovalFlow.ManagerNodeStatusAsWritten | src/components/ApprovalFlow.js:111-113 | the manager node as written never shows `rejected` |
| ApprovalFlow.ManagerNodePendingAfterRejection | src/components/ApprovalFlow.js:111-113 | after a manager rejection, the node as written shows `pending` on a closed request |
| ApprovalFlow.ManagerNodeTracksRequest | src/components/ApprovalFlow.js:111-113 | with the rejection branch testing the step a rejection writes, the manager node on reachable states is rejected exactly when the request is, completed exactly when the manager approved, and pending exactly when its buttons are shown |
| ApprovalFlow.DiagramOnReachableStates | src/components/ApprovalFlow.js:128-230 | on reachable states the director node is never `rejected` and is pending exactly when active, the final node waits exactly while pending, no rejection edge is drawn, and each forward edge is solid exactly once its approval happened |
| LeaveModel.Merge | src/App.js:125 | `{...request, ...updates}`: present keys replace, absent keys keep, id and form fields untouched |
| LeaveModel.FormJson | src/App.js:115 | the form posted as `requestData` has exactly the seven form keys, with the form's values |
| EmailService.SendInitialRequestEmail | src/services/EmailService.js:53-66 | posts `to` and `requestData` unchanged to the initial-request route |
| EmailService.SendApprovalEmail | src/services/EmailService.js:6-21 | posts `to` and `requestData` unchanged to the approval route |
| EmailService.SendRejectionEmail | src/services/EmailService.js:23-36 | posts `to` and `requestData` unchanged to the rejection route |
| EmailService.SendNotificationEmail | src/services/EmailService.js:38-51 | posts `to` and `requestData` unchanged to the notification route |
| App.NewRequest | src/App.js:94-108 | a new request copies the form unchanged, is pending at `manager` whatever the form holds, and has one history entry, `submitted`/`completed` |
| App.HandleNewLeaveRequest | src/App.js:93-119 | the new request is prepended and the old ones keep their order; the manager is e-mailed with the form data; a failed e-mail is reported but the request stays |
| App.HandleUpdateRequest | src/App.js:121-129 | the list keeps its length; requests with another id are identical afterwards, and those with the id get the update merged |
| App.UpdateUnknownIdIsIdentity | src/App.js:122-128 | an update for an id nobody has changes nothing |
| App.UpdateKeepsIds | src/App.js:122-128 | updating keeps every id in place |
| App.ActWithoutEffect | src/components/ApprovalFlow.js:237-238 | a click for an unknown id sends nothing and changes nothing, and a click whose e-mail fails changes nothing |
| App.ActTouchesOnlyTarget | src/App.js:122-128 | a click changes no request but the clicked one and moves none |
| App.ActKeepsIds | src/App.js:122-128 | a click keeps every id in place, so unique ids stay unique |
| App.ActOnTarget | src/components/ApprovalFlow.js:240-299 | on the clicked request: its e-mail is sent; once delivered, its history grows by exactly the click's entry with all earlier entries kept, its state moves by the action's effect, and its id and form are unchanged |
| App.SubmissionKeepsInvariant | src/App.js:94-110 | submitting with a fresh id keeps ids unique when they were, and keeps every request in one of the four states the buttons lead through when they all were |
| App.OfferedActKeepsInvariant | src/components/ApprovalFlow.js:117-136 | a click offered by the view keeps ids unique and every request in one of the four states the buttons lead through |
| App.OverlappingClicksReachRejectedAtDirector | src/components/ApprovalFlow.js:256-299 | two manager clicks in flight at once (Reject, then Approve), both offered on pending/manager and both delivered, with the rejection's update merged first, leave the request rejected at the director's step, outside the four states, with one new history entry instead of two |
| JsString.Trim | src/components/LeaveRequestForm.js:121 | `trim()` is empty exactly when the input is all white space; otherwise it is the infix of the input between a blank prefix and a blank suffix, and it starts and ends with non-space |
| JsString.StrLessIrreflexive | src/components/LeaveRequestForm.js:139 | no string is `>` itself, so equal dates pass the order check |
| JsString.StrLessTrichotomy | src/components/LeaveRequestForm.js:139 | of two different strings exactly one is `<` the other |
| JsString.StrLessTransitive | src/components/LeaveRequestForm.js:139 | string `<` is transitive |
| JsString.IsoDateOrder | src/components/LeaveRequestForm.js:139 | for `yyyy-MM-dd` strings, string order is calendar order |
| EmailPattern.RegexTestShortest | src/components/LeaveRequestForm.js:127 | the pattern matches some infix exactly when a shortest match exists (one non-space, '@', non-spaces, '.', one non-space) |
| EmailPattern.ScanFrom | src/components/LeaveRequestForm.js:127 | scanning the rest of the value from the state its first part leads to ends in the state the whole value leads to |
| EmailPattern.IsEmailLike | src/components/LeaveRequestForm.js:127 | the scan answers true exactly when some infix of the value matches `\S+@\S+\.\S+` |
| LeaveRequestForm.ValidateForm | src/components/LeaveRequestForm.js:118-161 | a field is in the error map exactly when its check fails, with that check's message |
| LeaveRequestForm.EmailErrorMeaning | src/components/LeaveRequestForm.js:125-129 | an e-mail field gets a message exactly when it is blank or fails the pattern: the "required" one when blank, otherwise the "invalid" one |
| LeaveRequestForm.ValidateFormFlags | src/components/LeaveRequestForm.js:121-157 | a field is flagged exactly when it fails: blank name or reason, missing date, end before start, e-mail blank or not matching |
| LeaveRequestForm.ValidateFormMessages | src/components/LeaveRequestForm.js:121-157 | each flagged field shows its message, the end date's being "required" when missing and "after start" otherwise |
| LeaveRequestForm.ValidIffChecksPass | src/components/LeaveRequestForm.js:159-160 | `validateForm()` is true exactly when name and reason are not blank, the three e-mails are accepted, both dates are given and the end is not before the start |
| LeaveRequestForm.SameDayAccepted | src/components/LeaveRequestForm.js:139-141 | a leave that starts and ends on the same day passes the date check |
| LeaveRequestForm.AcceptedDatesInCalendarOrder | src/components/LeaveRequestForm.js:139-141 | for ISO dates, the end date passes exactly when it is not earlier in the calendar |
| LeaveRequestForm.HandleChange | src/components/LeaveRequestForm.js:196-210 | only the named field takes the value, a shown message of that field is cleared to '' and every other message stays |
| LeaveRequestForm.HandleSubmit | src/components/LeaveRequestForm.js:163-194 | the data is handed on exactly when the form is valid; the success banner appears and all seven fields become '' exactly when the hand-over did not throw; otherwise the fields are kept |
| LeaveRequestForm.EmptyFormRejected | src/components/LeaveRequestForm.js:176-184 | the form as it starts, and as a success leaves it, gets the "required" message on all seven fields |
| Basics.Interpolate | server/server.js:29 | `${obj.key}` gives the string value, or "undefined" when the key is missing |
| Server.SubjectRoundTrip | server/server.js:27-141 | every template's subject is its prefix followed by the employee name, and the kind can be read back off the subject |
| Server.SubjectDeterminesKindAndName | server/server.js:27-141 | two templates with the same subject have the same kind and name the same employee |
| Server.RejectionStatusLine | server/server.js:92 | the rejection template says 'Reddedildi' exactly when the data it gets has status 'rejected' |
| Server.SelectTemplateDispatch | server/server.js:180-280 | initial route: approval request; approval route: approval request with label 'üst amir onayı' exactly when step is 'director', else 'amir onayı' (the template never reads the label, so the director's e-mail reads as the manager's); rejection route: bounce-back notice exactly when rejectedBy is 'director', else a rejection saying 'Reddedildi'; notification route: approval notice exactly when status is 'approved', else a rejection |
| Server.SendEmail | server/server.js:144-175 | on success, `success` is true, `recipient` equals `to`, and the message id is 'demo-' followed by the clock reading; a transporter failure throws |
| Server.HandlePost | server/server.js:180-280 | a route answers 200 with its own message and the send result exactly when `requestData` is present and the transporter works, having rendered the dispatched template for `to`; otherwise 500 with 'Email gönderim hatası'; the message alone tells which route answered and whether it failed |
| Scenarios.DriveTouchesOnlyTarget | src/App.js:121-129 | clicks on one request keep every other request, every id, and the request's form |
| Scenarios.DriveFollowsReplay | src/components/ApprovalFlow.js:240-299 | offered clicks on one request leave it where the guarded workflow leads, with one new history entry per click after the old ones |
| Scenarios.DriveSendsNotifications | src/components/ApprovalFlow.js:252-296 | each click on a request sends exactly that click's e-mail for the request, in order |
| Scenarios.NotificationServedAsIntended | server/server.js:200-280 | each button's e-mail reaches the intended person and is rendered with the intended template under the employee's name; a manager rejection says 'Reddedildi' |
| Scenarios.SubmissionServedAsIntended | src/App.js:115 | the submission e-mail asks the manager for approval under the employee's name |
| Scenarios.SubmitThenDrive | src/App.js:93-129 | after submitting with a fresh id and clicking, the new request heads the list, the old ones are untouched, and it is where the guarded workflow leads with one history entry per click after the first |
| Scenarios.SubmitThenDriveEmails | src/components/ApprovalFlow.js:252-296 | after a submission, the clicks send one e-mail each, to the intended person, with the intended template |
| Scenarios.FullApproval | demo.js:70-75 | manager and director approve: approved/completed, three history entries, e-mails to manager, director and employee |
| Scenarios.ManagerRejection | demo.js:77-81 | manager rejects: rejected/rejected, two history entries, the employee told 'Reddedildi' |
| Scenarios.BounceBack | demo.js:83-89 | manager approves, director rejects: pending/manager again, three entries, the manager gets the bounce-back notice |
| Scenarios.SecondRoundApproval | src/components/ApprovalFlow.js:275-284 | after a bounce-back both approve again: approved/completed with five entries; e-mails to director, manager, director, employee |
| Scenarios.DirectorCannotActFirst | src/components/ApprovalFlow.js:134 | at the start the director's buttons are not shown |
| Scenarios.SubmitForm | src/App.js:113-118 | when the browser's own input checks refuse the form nothing runs and nothing changes; otherwise the application's submit handler never throws, so a form passing every check is prepended as a new request and cleared, and any other form adds nothing and is kept |

## Left out

- Rendering: the JSX, styling, diagram positions, colours and labels. Only the derived node and edge statuses are modelled. The request selector and the dashboard (src/components/Dashboard.js) are presentation. The dashboard's day count depends on JavaScript `Date` parsing.
- Transport: axios, Express routing, CORS, JSON parsing, and the health, 404 and error middleware. Delivery is an input: the click's e-mail either returned or threw.
- The mail transporter: `createTransporter` calls `nodemailer.createTransporter` (server/server.js:17), a name that does not match nodemailer's published factory `createTransport`; if the library has no such function, creating the transporter throws, every route answers 500, and no click ever updates a request. nodemailer is not part of this model, so that cannot be settled here. Whether creating it returns or throws is a parameter of `Server.SendEmail`. The `from` address, read from the environment, is not modelled.
- HTML bodies of the templates. Only the subject and the status line of each body are modelled. The rejection template's second sentence follows the same status test as its status line.
- Server.HandlePost: the `error` field of a 500 answer (the thrown error's message) is not modelled, because that text comes from the JavaScript engine or the mail library.
- Non-determinism: `uuidv4()`, `new Date().toISOString()` and `Date.now()` are parameters. The completed node's timestamp (src/components/ApprovalFlow.js:150) and the history lookup for node timestamps are display-only.
- The stale click handler: `generateFlowNodes` is memoised with `useCallback(..., [])` (src/components/ApprovalFlow.js:85, :233), so every button calls the `handleApproval` of the screen's first render, which holds the `requests` list from when the approval screen was mounted. The diagram is redrawn after every click (the effect at :303-309), but the handler stays the mount-time one until the approval screen is remounted, which happens when the user switches tabs (src/App.js:156-166). Within one mount, a click on a request submitted after the mount finds nothing, sends no e-mail and changes nothing (:237-238); the form sits next to the approval screen, so this is the case for every request submitted while it is shown. A later click on a request that did exist rebuilds `flowHistory` from the mount-time copy (:242), dropping entries earlier clicks added: demo-1 approved by the manager and then the director ends with two entries, not three. For requests that existed at the mount, the (status, step) pair still moves by the action's effect, because the merge at src/App.js:125 applies to the current record. The model hands each click the current list. Consequently Scenarios.SubmitThenDrive, Scenarios.SubmitThenDriveEmails, Scenarios.FullApproval, Scenarios.ManagerRejection, Scenarios.BounceBack and Scenarios.SecondRoundApproval (a request submitted and then clicked) hold for the program only when the approval screen is remounted after the submission; their history counts, and those of ApprovalFlow.HandleApproval, App.ActOnTarget and Scenarios.DriveFollowsReplay, hold only when it is also remounted between clicks.
- Overlapping clicks: a click's update is merged only after its awaited e-mail, and the buttons stay shown meanwhile (see "## Findings"). ApprovalFlow.ReachableIffConsistent, ApprovalFlow.NoRejectedAtDirector, ApprovalFlow.TerminalStatesOfferNothing, ApprovalFlow.DiagramOnReachableStates, ApprovalFlow.ManagerNodeTracksRequest and App.OfferedActKeepsInvariant hold for the program only when each click's update lands before the next click; App.OverlappingClicksReachRejectedAtDirector shows a run where it does not. Likewise, a director who approves and then rejects, the rejection landing last, leaves the request approved at the manager's step.
- Scenarios.SubmitForm and LeaveRequestForm.HandleSubmit describe what happens once the form's submit event fires. The form has no `noValidate` (src/components/LeaveRequestForm.js:224), so the browser first applies the inputs' own rules: the start date's `min` of today (:259), the end date's `min` of the start date or today (:272), and the `type="email"` grammar of the three address fields (:241, :292, :305). These can refuse a form `validateForm` accepts, such as a start date before today or the address `x y@a.b`, which the unanchored pattern accepts. They are the only place the program keeps the start date from being in the past. The browser's verdict is the `browserAccepts` parameter of Scenarios.SubmitForm; its rules, which need the current date and the HTML e-mail grammar, are not modelled.
- The `isSubmitting` flag and the 5-second banner timer of the form. Each handler is modelled as one step.
- The `sendDemoEmail` helper of the e-mail client is never called by the application.
- demo.js prints text and makes network calls. Its three scenarios appear only as lemmas.
- JsString.StrLess compares characters by code point, while JavaScript compares UTF-16 code units. The two orders differ only between characters outside the Basic Multilingual Plane and high BMP characters; date-input values are ASCII.
- JsString.Trim uses the white-space set of the ECMAScript standard (WhiteSpace and LineTerminator). Unicode category Zs is written out for the current Unicode version.
- Request records keep the form fields in a `form` record, where the source spreads them into the request object. The handler reads those fields only, so nothing depends on the difference.

## Findings

| source | as written | input that shows it | evidently intended | confidence | as-written member | corrected member |
|---|---|---|---|---|---|---|
| src/components/ApprovalFlow.js:111-113 | the manager node's `rejected` branch tests `currentStep === 'manager'`, a case the first branch already returned `pending` for, so the branch is dead; the director node's `rejected` branch (:130) is dead the same way, behind its first branch's `currentStep === 'director'`, with no visible effect, since a request at rejected/director is drawn the same way whatever that branch said (the pair is unreachable one click at a time, and reachable through overlapping clicks: see the next row) | a request the manager rejected: status `rejected`, step `rejected`; its manager node shows `pending` | the node shows `rejected` when the manager rejected, i.e. the branch tests the step a manager rejection writes (`rejected`) | not executed (medium: inferred from the code) | ApprovalFlow.ManagerNodeStatusAsWritten, with ApprovalFlow.ManagerNodePendingAfterRejection; ApprovalFlow.DirectorNodeNeverRejected for :130 | ApprovalFlow.ManagerNodeStatus, with ApprovalFlow.ManagerNodeTracksRequest |
| src/components/ApprovalFlow.js:256-299 | the request's update is merged only after the click's awaited e-mail returns, while the node keeps showing its buttons (src/components/CustomNode.js:163), so a second click is handled against the state before the first one lands | the manager presses Reject and then Approve before the rejection's e-mail returns, and the rejection's update lands first: the request ends rejected at the director's step with one new history entry instead of two | a click is not offered again until the previous click's update has landed, so each click acts on the state the previous one left | not executed (medium: inferred from the code) | App.OverlappingClicksReachRejectedAtDirector | App.OfferedActKeepsInvariant, with ApprovalFlow.ReachableIffConsistent |
