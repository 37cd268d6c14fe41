/** The browser-side e-mail client. Each of its four methods posts
    `{ to, requestData }` to one fixed endpoint of the e-mail server and
    rethrows any failure to its caller; delivery itself is an outcome the
    model receives as an input. */
module EmailService {
  import opened Basics

  /** The four POST routes of the e-mail server. */
  datatype Endpoint =
    | InitialRequestEndpoint   // /api/send-initial-request-email
    | ApprovalEndpoint         // /api/send-approval-email
    | RejectionEndpoint        // /api/send-rejection-email
    | NotificationEndpoint     // /api/send-notification-email

  /** One call of an e-mail client method: the route, `to` and `requestData`. */
  datatype EmailCall = EmailCall(endpoint: Endpoint, to: string, data: Json)

  function SendInitialRequestEmail(managerEmail: string, data: Json): (c: EmailCall)
    ensures c.endpoint == InitialRequestEndpoint && c.to == managerEmail && c.data == data
  {
    EmailCall(InitialRequestEndpoint, managerEmail, data)
  }

  function SendApprovalEmail(recipient: string, data: Json): (c: EmailCall)
    ensures c.endpoint == ApprovalEndpoint && c.to == recipient && c.data == data
  {
    EmailCall(ApprovalEndpoint, recipient, data)
  }

  function SendRejectionEmail(recipient: string, data: Json): (c: EmailCall)
    ensures c.endpoint == RejectionEndpoint && c.to == recipient && c.data == data
  {
    EmailCall(RejectionEndpoint, recipient, data)
  }

  function SendNotificationEmail(recipient: string, data: Json): (c: EmailCall)
    ensures c.endpoint == NotificationEndpoint && c.to == recipient && c.data == data
  {
    EmailCall(NotificationEndpoint, recipient, data)
  }
}
