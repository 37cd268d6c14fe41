/** The e-mail server: the four templates (their subjects and the status
    line of their bodies), which template each POST route picks from the
    posted `requestData`, the demo `sendEmail` result, and the JSON each
    route answers with. Whether the mail transporter can be created and
    the `Date.now()` reading are parameters. */
module Server {
  import opened Basics
  import opened EmailService

  /** The four entries of `emailTemplates`. */
  datatype TemplateKind = ApprovalRequest | ApprovalNotification | RejectionNotification | ManagerRejectionNotice

  /** The text of a subject before the interpolated employee name. */
  function SubjectPrefix(k: TemplateKind): string {
    match k
    case ApprovalRequest => "🏖️ Yıllık İzin Onay Talebi - "
    case ApprovalNotification => "✅ İzin Talebiniz Onaylandı - "
    case RejectionNotification => "❌ İzin Talebiniz Hakkında - "
    case ManagerRejectionNotice => "🔄 İzin Talebi Geri Döndürüldü - "
  }

  /** A rendered template: its kind, its subject, the "Durum" line of its
      body when it has one, and the data it was rendered from. The static
      HTML around these is not modelled. */
  datatype Template = Template(kind: TemplateKind, subject: string, statusLine: Option<string>, given: Json)

  /** The status line of the body. Only the rejection template reads the
      data: 'Reddedildi' for `status === 'rejected'`, otherwise 'Gözden
      Geçiriliyor'. */
  function StatusLine(k: TemplateKind, data: Json): Option<string> {
    match k
    case ApprovalRequest => None
    case ApprovalNotification => Some("Onaylandı")
    case RejectionNotification => Some(if HasValue(data, "status", "rejected") then "Reddedildi" else "Gözden Geçiriliyor")
    case ManagerRejectionNotice => Some("Üst amir tarafından geri döndürüldü")
  }

  /** `emailTemplates[k](data)`. */
  function Render(k: TemplateKind, data: Json): (t: Template)
    ensures t.kind == k && t.given == data
  {
    Template(k, SubjectPrefix(k) + Interpolate(data, "employeeName"), StatusLine(k, data), data)
  }

  /** Reads the kind back off a subject: the four prefixes start with four
      different characters. */
  function KindOfSubject(subject: string): Option<TemplateKind> {
    if |subject| == 0 then None
    else if subject[0] == '🏖' then Some(ApprovalRequest)
    else if subject[0] == '✅' then Some(ApprovalNotification)
    else if subject[0] == '❌' then Some(RejectionNotification)
    else if subject[0] == '🔄' then Some(ManagerRejectionNotice)
    else None
  }

  /** Every subject ends with the employee name (or "undefined" when the
      data has none), and the kind and the name can both be read back off
      it. */
  lemma SubjectRoundTrip(k: TemplateKind, data: Json)
    ensures var s := Render(k, data).subject;
      var name := Interpolate(data, "employeeName");
      && |SubjectPrefix(k)| <= |s|
      && s[|SubjectPrefix(k)|..] == name
      && KindOfSubject(s) == Some(k)
  {
  }

  /** Two templates with the same subject are of the same kind and name the
      same employee. */
  lemma SubjectDeterminesKindAndName(k1: TemplateKind, d1: Json, k2: TemplateKind, d2: Json)
    requires Render(k1, d1).subject == Render(k2, d2).subject
    ensures k1 == k2
    ensures Interpolate(d1, "employeeName") == Interpolate(d2, "employeeName")
  {
    SubjectRoundTrip(k1, d1);
    SubjectRoundTrip(k2, d2);
  }

  /** The label the approval route puts under `step`. */
  function StepLabel(data: Json): string {
    if HasValue(data, "step", "director") then "üst amir onayı" else "amir onayı"
  }

  /** The template a route renders for the posted `requestData`. */
  function SelectTemplate(endpoint: Endpoint, data: Json): (t: Template) {
    match endpoint
    case InitialRequestEndpoint => Render(ApprovalRequest, data)
    case ApprovalEndpoint => Render(ApprovalRequest, data["step" := StepLabel(data)])
    case RejectionEndpoint =>
      if HasValue(data, "rejectedBy", "director") then Render(ManagerRejectionNotice, data)
      else Render(RejectionNotification, data["status" := "rejected"])
    case NotificationEndpoint =>
      if HasValue(data, "status", "approved") then Render(ApprovalNotification, data)
      else Render(RejectionNotification, data)
  }

  /** The dispatch, route by route: the two request routes always ask for
      approval; the rejection route sends the bounce-back notice exactly
      when the director rejected, and otherwise a rejection whose body says
      'Reddedildi' whatever status was posted; the notification route
      announces approval exactly when the posted status is 'approved'. No
      route changes the employee name the subject carries. The approval
      route's `step` label is never read by the approval-request template,
      so the director's e-mail reads exactly as the manager's. */
  lemma SelectTemplateDispatch(endpoint: Endpoint, data: Json)
    ensures var t := SelectTemplate(endpoint, data);
      && t.subject == SubjectPrefix(t.kind) + Interpolate(data, "employeeName")
      && (endpoint == InitialRequestEndpoint ==> t.kind == ApprovalRequest && t.given == data)
      && (endpoint == ApprovalEndpoint ==>
           && t.kind == ApprovalRequest
           && HasValue(t.given, "step", "üst amir onayı") == HasValue(data, "step", "director")
           && HasValue(t.given, "step", "amir onayı") == !HasValue(data, "step", "director"))
      && (endpoint == RejectionEndpoint ==>
           && (t.kind == ManagerRejectionNotice <==> HasValue(data, "rejectedBy", "director"))
           && (t.kind != ManagerRejectionNotice ==>
                t.kind == RejectionNotification && t.statusLine == Some("Reddedildi")))
      && (endpoint == NotificationEndpoint ==>
           && (t.kind == ApprovalNotification <==> HasValue(data, "status", "approved"))
           && (t.kind != ApprovalNotification ==> t.kind == RejectionNotification))
  {
    assert "employeeName" != "step" && "employeeName" != "status";
  }

  /** A rejection template's status line reads 'Reddedildi' exactly when
      the data it was given has `status === 'rejected'`. */
  lemma RejectionStatusLine(data: Json)
    ensures Render(RejectionNotification, data).statusLine == Some("Reddedildi") <==> HasValue(data, "status", "rejected")
    ensures Render(RejectionNotification, data).statusLine.Some?
  {
  }

  /** The demo result of `sendEmail`. */
  datatype SendResult = SendResult(success: bool, messageId: string, recipient: string)

  /** `sendEmail(to, template)`. `transporterOk` says whether creating the
      mail transporter returned rather than threw; `stamp` is the
      `Date.now()` reading. Nothing is delivered: the mail is only logged. */
  function SendEmail(to: string, t: Template, transporterOk: bool, stamp: string): (r: Option<SendResult>)
    ensures r.Some? <==> transporterOk
    ensures r.Some? ==> r.value.success && r.value.recipient == to
    ensures r.Some? ==> r.value.messageId == "demo-" + stamp
  {
    if transporterOk then Some(SendResult(true, "demo-" + stamp, to)) else None
  }

  /** The JSON body of a POST `{ to, requestData }`; a missing `requestData`
      is `None`. */
  datatype Body = Body(to: string, requestData: Option<Json>)

  /** The mail a route hands to `sendEmail`. */
  datatype Mail = Mail(to: string, template: Template)

  /** What a route answers: status 200 with a message and the send result,
      or status 500 with the error message. */
  datatype Response =
    | Success(message: string, result: SendResult)
    | ServerError(message: string)

  function StatusCode(r: Response): int {
    if r.Success? then 200 else 500
  }

  const ErrorMessage := "Email gönderim hatası"

  function SuccessMessage(endpoint: Endpoint): string {
    match endpoint
    case InitialRequestEndpoint => "İlk talep emaili gönderildi"
    case ApprovalEndpoint => "Onay emaili gönderildi"
    case RejectionEndpoint => "Red emaili gönderildi"
    case NotificationEndpoint => "Bildirim emaili gönderildi"
  }

  /** A route's answer, and the mail it logged if it got that far. */
  datatype Outcome = Outcome(response: Response, mail: Option<Mail>)

  /** One of the four POST routes. Reading a property of a missing
      `requestData` throws before a template exists; a transporter that
      cannot be created throws inside `sendEmail`; both become a 500. */
  function HandlePost(endpoint: Endpoint, body: Body, transporterOk: bool, stamp: string): (o: Outcome)
    ensures o.response.Success? <==> body.requestData.Some? && transporterOk
    ensures o.mail.Some? <==> o.response.Success?
    ensures StatusCode(o.response) == 200 <==> o.response.Success?
    ensures o.response.Success? ==>
      && o.response.message == SuccessMessage(endpoint)
      && o.response.result.success
      && o.response.result.recipient == body.to
      && o.mail.value == Mail(body.to, SelectTemplate(endpoint, body.requestData.value))
    ensures o.response.ServerError? ==> o.response.message == ErrorMessage
    ensures o.response.message == ErrorMessage <==> o.response.ServerError?
    ensures o.response.Success? ==> forall e :: SuccessMessage(e) == o.response.message <==> e == endpoint
  {
    match body.requestData
    case None => Outcome(ServerError(ErrorMessage), None)
    case Some(data) =>
      var t := SelectTemplate(endpoint, data);
      match SendEmail(body.to, t, transporterOk, stamp)
      case None => Outcome(ServerError(ErrorMessage), None)
      case Some(result) => Outcome(Success(SuccessMessage(endpoint), result), Some(Mail(body.to, t)))
  }
}
