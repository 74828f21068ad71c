/** `submitQuote` (functions/index.js lines 124-293): a multipart form with
    text fields and file parts.

    `OPTIONS` gets 204, `GET` a status page, any other method but `POST` 405,
    all before anything is staged. For a `POST`, every failure inside the
    `try` block (empty body, parser error, parse timeout, missing field,
    malformed e-mail, transport missing, relay rejection) is thrown and
    answered with 500 carrying the error's message, or a fixed text when that
    message is empty. The `finally` block deletes every staged file on every
    exit of a `POST`.

    The parser is represented by the events it delivered before it settled and
    by how it settled; the files whose writes finished among those events are
    the staged files. */
module QuoteHandler {
  import opened Runtime
  import opened Http
  import opened RequiredFields
  import opened EmailSyntax
  import opened Staging
  import opened Notification
  import opened Alerts
  import opened Transport

  /** How the parse promise settled: `busboy.on('finish')` resolved it, an
      `error` event rejected it with the parser's message, or the 30-second
      timer rejected it. */
  datatype ParseEnd = Finished | Failed(message: string) | TimedOut

  /** `req.method`, the length of `req.rawBody` (0 when it is missing), and
      what the parser did with it. */
  datatype QuoteRequest = QuoteRequest(httpMethod: string, bodyLength: nat, events: seq<ParseEvent>, end: ParseEnd)

  /** The response, the message given to `sendMail` if it was called, and
      `uploadedFiles` as the `finally` block finds it. */
  datatype QuoteResult = QuoteResult(response: Response, mail: Option<MailMessage>, staged: seq<string>)

  const EmptyBody: string := "Empty request body"
  const ParseTimeout: string := "Parse timeout"
  const QuoteSubmitted: string := "Quote request submitted successfully! We will contact you within 24 hours."
  const QuoteFallback: string := "Failed to submit. Please try again or call +91 9150400011"

  /** The `catch` block: `res.status(500).json({success: false, message: error.message || fallback})`. */
  function Failure(message: string): (r: Response)
    ensures r.Json? && r.status == 500 && !r.success
    ensures r.message != ""
    ensures message != "" ==> r.message == message
    ensures message == "" ==> r.message == QuoteFallback
  {
    Json(500, false, if message != "" then message else QuoteFallback)
  }

  /** Both checks of the handler pass on the parsed fields. */
  predicate ValidQuote(fields: FieldMap) {
    AllGiven(fields, QuoteRequired) && "email" in fields && EmailRegexTest(fields["email"])
  }

  predicate IsPost(req: QuoteRequest) {
    req.httpMethod == "POST"
  }

  /** A `POST` whose non-empty body was parsed to the end. */
  predicate Parsed(req: QuoteRequest) {
    IsPost(req) && req.bodyLength > 0 && req.end.Finished?
  }

  /** A parsed `POST` whose fields pass both checks. */
  predicate Accepted(req: QuoteRequest) {
    Parsed(req) && ValidQuote(FieldsOf(req.events))
  }

  /** The decision the handler makes. `transportReady` says whether
      `getTransporter()` returns, `send` how `sendMail` settles. */
  function QuoteOutcome(env: Env, transportReady: bool, req: QuoteRequest, send: SendOutcome): (r: QuoteResult)
    ensures r.response == NoContent <==> req.httpMethod == "OPTIONS"
    ensures r.response == StatusPage <==> req.httpMethod == "GET"
    ensures StatusOf(r.response) == 405 <==> req.httpMethod !in {"OPTIONS", "GET", "POST"}
    ensures StatusOf(r.response) == 405 ==> r.response == Json(405, false, MethodNotAllowed)
    ensures StatusOf(r.response) == 200 && r.response.Json? ==> r.response == Json(200, true, QuoteSubmitted)
    ensures !IsPost(req) ==> r.mail.None? && r.staged == []
    ensures IsPost(req) ==> r.staged == if req.bodyLength == 0 then [] else UploadedOf(req.events)
    ensures StatusOf(r.response) != 400
    ensures r.mail.Some? <==> Accepted(req) && transportReady
    ensures StatusOf(r.response) == 200 && r.response.Json? <==> Accepted(req) && transportReady && send.Sent?
    ensures StatusOf(r.response) == 500 <==> IsPost(req) && !(Accepted(req) && transportReady && send.Sent?)
    ensures StatusOf(r.response) == 500 ==> r.response == Json(500, false, r.response.message) && r.response.message != ""
    ensures IsPost(req) && req.bodyLength == 0 ==> r.response == Failure(EmptyBody)
    ensures IsPost(req) && req.bodyLength > 0 && req.end.Failed? ==> r.response == Failure(req.end.message)
    ensures IsPost(req) && req.bodyLength > 0 && req.end.TimedOut? ==> r.response == Failure(ParseTimeout)
    ensures Parsed(req) && !AllGiven(FieldsOf(req.events), QuoteRequired) ==> r.response == Failure(MissingRequired)
    ensures Parsed(req) && AllGiven(FieldsOf(req.events), QuoteRequired) && !ValidQuote(FieldsOf(req.events)) ==>
              r.response == Failure(InvalidEmail)
    ensures Accepted(req) && !transportReady ==> r.response == Failure(ConfigurationMissing)
    ensures Accepted(req) && transportReady && send.Rejected? ==> r.response == Failure(send.message)
    ensures r.mail.Some? ==>
              && AllGiven(FieldsOf(req.events), QuoteRequired)
              && r.mail.value == QuoteMessage(env, FieldsOf(req.events), FilesOf(req.events))
    ensures r.mail.Some? ==>
              && r.mail.value.to == QuoteRecipients
              && |r.mail.value.attachments| == |r.staged|
              && (forall k :: 0 <= k < |r.staged| ==> r.mail.value.attachments[k].path == r.staged[k])
  {
    if req.httpMethod == "OPTIONS" then QuoteResult(NoContent, None, [])
    else if req.httpMethod == "GET" then QuoteResult(StatusPage, None, [])
    else if req.httpMethod != "POST" then QuoteResult(Json(405, false, MethodNotAllowed), None, [])
    else if req.bodyLength == 0 then QuoteResult(Failure(EmptyBody), None, [])
    else
      var staged := UploadedOf(req.events);
      match req.end
      case Failed(message) => QuoteResult(Failure(message), None, staged)
      case TimedOut => QuoteResult(Failure(ParseTimeout), None, staged)
      case Finished =>
        var fields := FieldsOf(req.events);
        QuoteRequiredFields(fields);
        if !AllGiven(fields, QuoteRequired) then QuoteResult(Failure(MissingRequired), None, staged)
        else if !EmailRegexTest(fields["email"]) then QuoteResult(Failure(InvalidEmail), None, staged)
        else if !transportReady then QuoteResult(Failure(ConfigurationMissing), None, staged)
        else
          AttachmentsAreStaged(req.events);
          var mail := QuoteMessage(env, fields, FilesOf(req.events));
          match send
          case Sent => QuoteResult(Json(200, true, QuoteSubmitted), Some(mail), staged)
          case Rejected(message) => QuoteResult(Failure(message), Some(mail), staged)
  }

  /** The handler run against the process-wide mailer and the scratch storage.
      `disk` is the scratch storage before the request; each finished write
      adds its path; `undeletable` holds the paths whose deletion throws. */
  method SubmitQuote(
    mailer: Mailer, env: Env, req: QuoteRequest, send: SendOutcome, fetchOk: WebhookCall -> bool,
    disk: set<string>, undeletable: set<string>)
    returns (r: QuoteResult, alerts: seq<AlertOutcome>, diskAfter: set<string>)
    modifies mailer
    ensures r == QuoteOutcome(env, TransportAvailable(old(mailer.transporter), env), req, send)
    ensures diskAfter == AfterCleanup(disk + PathSet(r.staged), r.staged, undeletable)
    ensures mailer.transporter == if Accepted(req) then CacheAfter(old(mailer.transporter), env) else old(mailer.transporter)
    ensures !(StatusOf(r.response) == 200 && r.response.Json?) ==> alerts == []
    ensures StatusOf(r.response) == 200 && r.response.Json? ==>
              CallsOf(alerts) == PlannedCalls(env.webhookUrl, QuoteAlert, FieldsOf(req.events)["company"])
  {
    alerts := [];
    if req.httpMethod == "OPTIONS" {
      return QuoteResult(NoContent, None, []), alerts, disk;
    }
    if req.httpMethod == "GET" {
      return QuoteResult(StatusPage, None, []), alerts, disk;
    }
    if req.httpMethod != "POST" {
      return QuoteResult(Json(405, false, MethodNotAllowed), None, []), alerts, disk;
    }
    var uploadedFiles: seq<string> := [];
    var scratch := disk;
    var response: Response;
    var mail: Option<MailMessage> := None;
    if req.bodyLength == 0 {
      response := Failure(EmptyBody);
    } else {
      var area := new StagingArea();
      area.Consume(req.events);
      uploadedFiles := area.uploadedFiles;
      scratch := disk + PathSet(uploadedFiles);
      match req.end {
        case Failed(message) =>
          response := Failure(message);
        case TimedOut =>
          response := Failure(ParseTimeout);
        case Finished =>
          var fields := area.fields;
          QuoteRequiredFields(fields);
          if !AllGiven(fields, QuoteRequired) {
            response := Failure(MissingRequired);
          } else if !EmailRegexTest(fields["email"]) {
            response := Failure(InvalidEmail);
          } else {
            var transporter := mailer.GetTransporter(env);
            if transporter.Err? {
              response := Failure(transporter.message);
            } else {
              mail := Some(QuoteMessage(env, fields, area.files));
              match send {
                case Rejected(message) =>
                  response := Failure(message);
                case Sent =>
                  alerts := SendWhatsAppAlerts(env.webhookUrl, QuoteAlert, fields["company"], fetchOk);
                  response := Json(200, true, QuoteSubmitted);
              }
            }
          }
      }
    }
    diskAfter := Cleanup(scratch, uploadedFiles, undeletable);
    r := QuoteResult(response, mail, uploadedFiles);
  }
}
