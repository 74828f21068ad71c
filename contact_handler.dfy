/** `submitContact` (functions/index.js lines 64-122): a JSON form with
    `name`, `company`, `email`, `phone`, `subject` and `message`.

    Preflight `OPTIONS` gets 204 and every other method but `POST` gets 405.
    A `POST` is checked for its four required fields, then for the e-mail
    syntax, each failure a 400 with no mail sent. Then the notification is
    mailed; any throw on the way (the transport cannot be built, the relay
    rejects) becomes a 500 with a fixed text. Once the mail is out the alerts
    are sent and the answer is 200 whatever they do. */
module ContactHandler {
  import opened Runtime
  import opened Http
  import opened RequiredFields
  import opened EmailSyntax
  import opened Notification
  import opened Alerts
  import opened Transport

  /** `req.method` and the parsed JSON body; `None` when `req.body` is
      `undefined` or `null`, where destructuring it throws. */
  datatype ContactRequest = ContactRequest(httpMethod: string, body: Option<FieldMap>)

  /** The response, and the message given to `sendMail` if it was called. */
  datatype ContactResult = ContactResult(response: Response, mail: Option<MailMessage>)

  const ContactSent: string := "Message sent successfully!"
  const ContactFailed: string := "Failed to send. Call +91 9150400011"

  /** Both checks of the handler pass. */
  predicate ValidContact(fields: FieldMap) {
    AllGiven(fields, ContactRequired) && "email" in fields && EmailRegexTest(fields["email"])
  }

  /** A `POST` whose body passes both checks. */
  predicate Accepted(req: ContactRequest) {
    req.httpMethod == "POST" && req.body.Some? && ValidContact(req.body.value)
  }

  /** The decision the handler makes. `transportReady` says whether
      `getTransporter()` returns, `send` how `sendMail` settles. */
  function ContactOutcome(env: Env, transportReady: bool, req: ContactRequest, send: SendOutcome): (r: ContactResult)
    ensures r.response == NoContent <==> req.httpMethod == "OPTIONS"
    ensures StatusOf(r.response) == 405 <==> req.httpMethod != "OPTIONS" && req.httpMethod != "POST"
    ensures StatusOf(r.response) == 405 ==> r.response == Json(405, false, MethodNotAllowed)
    ensures StatusOf(r.response) == 400 <==> req.httpMethod == "POST" && req.body.Some? && !ValidContact(req.body.value)
    ensures r.response == Json(400, false, MissingRequired) <==>
              req.httpMethod == "POST" && req.body.Some? && !AllGiven(req.body.value, ContactRequired)
    ensures r.response == Json(400, false, InvalidEmail) <==>
              req.httpMethod == "POST" && req.body.Some? && AllGiven(req.body.value, ContactRequired)
              && !ValidContact(req.body.value)
    ensures r.mail.Some? <==> Accepted(req) && transportReady
    ensures StatusOf(r.response) == 200 <==> Accepted(req) && transportReady && send.Sent?
    ensures StatusOf(r.response) == 500 <==>
              req.httpMethod == "POST" && (req.body.None? || (ValidContact(req.body.value) && !(transportReady && send.Sent?)))
    ensures StatusOf(r.response) == 500 ==> r.response == Json(500, false, ContactFailed)
    ensures StatusOf(r.response) == 200 ==> r.response == Json(200, true, ContactSent)
    ensures r.mail.Some? ==>
              && AllGiven(req.body.value, ContactRequired)
              && r.mail.value == ContactMessage(env, req.body.value)
    ensures r.mail.Some? ==>
              && r.mail.value.to == ContactRecipients
              && r.mail.value.replyTo == Lookup(req.body.value, "email")
              && Lookup(req.body.value, "subject").Some? && Lookup(req.body.value, "name").Some?
              && r.mail.value.subject ==
                   ContactSubject(Lookup(req.body.value, "subject").value, Lookup(req.body.value, "name").value)
              && r.mail.value.attachments == []
  {
    if req.httpMethod == "OPTIONS" then ContactResult(NoContent, None)
    else if req.httpMethod != "POST" then ContactResult(Json(405, false, MethodNotAllowed), None)
    else if req.body.None? then ContactResult(Json(500, false, ContactFailed), None)
    else
      var fields := req.body.value;
      ContactRequiredFields(fields);
      if !AllGiven(fields, ContactRequired) then ContactResult(Json(400, false, MissingRequired), None)
      else if !EmailRegexTest(fields["email"]) then ContactResult(Json(400, false, InvalidEmail), None)
      else if !transportReady then ContactResult(Json(500, false, ContactFailed), None)
      else
        var mail := ContactMessage(env, fields);
        if send.Sent? then ContactResult(Json(200, true, ContactSent), Some(mail))
        else ContactResult(Json(500, false, ContactFailed), Some(mail))
  }

  /** The handler run against the process-wide mailer. The transport is
      looked up only for an accepted request; the alerts go out only after a
      successful send and do not affect the response. */
  method SubmitContact(mailer: Mailer, env: Env, req: ContactRequest, send: SendOutcome, fetchOk: WebhookCall -> bool)
    returns (r: ContactResult, alerts: seq<AlertOutcome>)
    modifies mailer
    ensures r == ContactOutcome(env, TransportAvailable(old(mailer.transporter), env), req, send)
    ensures mailer.transporter == if Accepted(req) then CacheAfter(old(mailer.transporter), env) else old(mailer.transporter)
    ensures StatusOf(r.response) != 200 ==> alerts == []
    ensures StatusOf(r.response) == 200 ==>
              CallsOf(alerts) == PlannedCalls(env.webhookUrl, ContactAlert,
                                              Or(Lookup(req.body.value, "company"), req.body.value["name"]))
  {
    alerts := [];
    if req.httpMethod == "OPTIONS" {
      return ContactResult(NoContent, None), alerts;
    }
    if req.httpMethod != "POST" {
      return ContactResult(Json(405, false, MethodNotAllowed), None), alerts;
    }
    if req.body.None? {
      return ContactResult(Json(500, false, ContactFailed), None), alerts;
    }
    var fields := req.body.value;
    if !AllGiven(fields, ContactRequired) {
      return ContactResult(Json(400, false, MissingRequired), None), alerts;
    }
    ContactRequiredFields(fields);
    if !EmailRegexTest(fields["email"]) {
      return ContactResult(Json(400, false, InvalidEmail), None), alerts;
    }
    var transporter := mailer.GetTransporter(env);
    if transporter.Err? {
      return ContactResult(Json(500, false, ContactFailed), None), alerts;
    }
    var mail := ContactMessage(env, fields);
    if send.Rejected? {
      return ContactResult(Json(500, false, ContactFailed), Some(mail)), alerts;
    }
    alerts := SendWhatsAppAlerts(env.webhookUrl, ContactAlert, Or(Lookup(fields, "company"), fields["name"]), fetchOk);
    r := ContactResult(Json(200, true, ContactSent), Some(mail));
  }
}
