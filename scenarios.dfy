/** Worked requests for the two handlers, stated on the decision functions. */
module Scenarios {
  import opened Runtime
  import opened Http
  import opened RequiredFields
  import opened EmailSyntax
  import opened Staging
  import opened Notification
  import opened QuoteHandler
  import ContactHandler

  /** The first four fields of the Acme quote form: everything but `description`. */
  const AcmePrefix: seq<ParseEvent> := [
    Field("company", "Acme"), Field("contact_person", "Jo"), Field("email", "jo@acme.com"),
    Field("component_type", "bracket")]

  /** A quote form with its five required fields and no files. */
  const AcmeEvents: seq<ParseEvent> := AcmePrefix + [Field("description", "need 10")]

  const AcmeFields: FieldMap := map[
    "company" := "Acme", "contact_person" := "Jo", "email" := "jo@acme.com",
    "component_type" := "bracket", "description" := "need 10"]

  lemma AcmeEmailAccepted()
    ensures EmailRegexTest("jo@acme.com")
  {
    assert Scan("jo@acme.com") == Done by {
      assert "jo@acme.com"[..10] == "jo@acme.co";
      assert "jo@acme.co"[..9] == "jo@acme.c";
      assert "jo@acme.c"[..8] == "jo@acme.";
      assert "jo@acme."[..7] == "jo@acme";
      assert "jo@acme"[..6] == "jo@acm";
      assert "jo@acm"[..5] == "jo@ac";
      assert "jo@ac"[..4] == "jo@a";
      assert "jo@a"[..3] == "jo@";
      assert "jo@"[..2] == "jo";
      assert "jo"[..1] == "j";
      assert "j"[..0] == "";
    }
  }

  /** The four fields of `AcmePrefix`, parsed one event at a time. */
  lemma AcmePrefixParsed()
    ensures FieldsOf(AcmePrefix) ==
              map[]["company" := "Acme"]["contact_person" := "Jo"]["email" := "jo@acme.com"]["component_type" := "bracket"]
    ensures FilesOf(AcmePrefix) == [] && UploadedOf(AcmePrefix) == []
  {
    var e0, e1, e2, e3 := Field("company", "Acme"), Field("contact_person", "Jo"),
                          Field("email", "jo@acme.com"), Field("component_type", "bracket");
    EventsSnoc([], e0);
    assert [] + [e0] == [e0];
    EventsSnoc([e0], e1);
    assert [e0] + [e1] == [e0, e1];
    EventsSnoc([e0, e1], e2);
    assert [e0, e1] + [e2] == [e0, e1, e2];
    EventsSnoc([e0, e1, e2], e3);
    assert [e0, e1, e2] + [e3] == AcmePrefix;
  }

  lemma AcmeFieldsParsed()
    ensures FieldsOf(AcmeEvents) == AcmeFields
    ensures FilesOf(AcmeEvents) == [] && UploadedOf(AcmeEvents) == []
  {
    AcmePrefixParsed();
    EventsSnoc(AcmePrefix, Field("description", "need 10"));
  }

  /** The Acme form passes both checks of the quote handler. */
  lemma AcmeFieldsValid()
    ensures ValidQuote(AcmeFields)
  {
    var f := AcmeFields;
    assert "company" in f && f["company"] == "Acme";
    assert "contact_person" in f && f["contact_person"] == "Jo";
    assert "email" in f && f["email"] == "jo@acme.com";
    assert "component_type" in f && f["component_type"] == "bracket";
    assert "description" in f && f["description"] == "need 10";
    QuoteRequiredFields(f);
    AcmeEmailAccepted();
  }

  /** A complete form with no files, a working transport and a relay that
      accepts: 200, one mail without attachments, nothing staged. */
  lemma AcmeQuoteSucceeds(env: Env, bodyLength: nat)
    requires bodyLength > 0
    ensures var r := QuoteOutcome(env, true, QuoteRequest("POST", bodyLength, AcmeEvents, Finished), Sent);
            && r.response == Json(200, true, QuoteSubmitted)
            && r.mail.Some? && r.mail.value.attachments == []
            && r.staged == []
  {
    AcmeFieldsParsed();
    AcmeFieldsValid();
    assert Accepted(QuoteRequest("POST", bodyLength, AcmeEvents, Finished));
  }

  /** The same form without `description`: the handler throws before any
      mail is sent and answers 500 "Missing required fields". */
  lemma MissingDescriptionRejected(env: Env, transportReady: bool, bodyLength: nat, send: SendOutcome)
    requires bodyLength > 0
    ensures var r := QuoteOutcome(env, transportReady, QuoteRequest("POST", bodyLength, AcmePrefix, Finished), send);
            && r.response == Json(500, false, MissingRequired)
            && r.mail.None? && r.staged == []
  {
    AcmePrefixParsed();
    var fields := FieldsOf(AcmePrefix);
    assert "description" !in fields;
    assert !Given(fields, "description");
    QuoteRequiredFields(fields);
    var req := QuoteRequest("POST", bodyLength, AcmePrefix, Finished);
    assert Parsed(req) && !AllGiven(fields, QuoteRequired);
  }

  /** The complete form followed by two finished file writes. */
  function AcmeWithTwoFiles(p1: string, p2: string): seq<ParseEvent> {
    AcmeEvents + [FileFinished("a.pdf", p1), FileFinished("b.pdf", p2)]
  }

  lemma AcmeWithTwoFilesParsed(p1: string, p2: string)
    ensures FieldsOf(AcmeWithTwoFiles(p1, p2)) == AcmeFields
    ensures UploadedOf(AcmeWithTwoFiles(p1, p2)) == [p1, p2]
    ensures FilesOf(AcmeWithTwoFiles(p1, p2)) == [StagedFile("a.pdf", p1), StagedFile("b.pdf", p2)]
  {
    var e1 := AcmeEvents + [FileFinished("a.pdf", p1)];
    AcmeFieldsParsed();
    EventsSnoc(AcmeEvents, FileFinished("a.pdf", p1));
    EventsSnoc(e1, FileFinished("b.pdf", p2));
    assert e1 + [FileFinished("b.pdf", p2)] == AcmeWithTwoFiles(p1, p2);
  }

  lemma AcmeWithTwoFilesAccepted(bodyLength: nat, p1: string, p2: string)
    requires bodyLength > 0
    ensures Accepted(QuoteRequest("POST", bodyLength, AcmeWithTwoFiles(p1, p2), Finished))
  {
    AcmeWithTwoFilesParsed(p1, p2);
    AcmeFieldsValid();
  }

  /** The complete form with two files and a relay that rejects: 500 with the
      relay's message, both files were attached, and the cleanup removes both. */
  lemma TwoFilesMailFails(env: Env, bodyLength: nat, error: string, p1: string, p2: string,
                          disk: set<string>, undeletable: set<string>)
    requires bodyLength > 0 && error != ""
    requires p1 !in undeletable && p2 !in undeletable
    ensures var r := QuoteOutcome(env, true, QuoteRequest("POST", bodyLength, AcmeWithTwoFiles(p1, p2), Finished),
                                  Rejected(error));
            && r.response == Json(500, false, error)
            && r.mail.Some? && |r.mail.value.attachments| == 2
            && r.staged == [p1, p2]
            && p1 !in AfterCleanup(disk + PathSet(r.staged), r.staged, undeletable)
            && p2 !in AfterCleanup(disk + PathSet(r.staged), r.staged, undeletable)
  {
    AcmeWithTwoFilesAccepted(bodyLength, p1, p2);
    AcmeWithTwoFilesParsed(p1, p2);
  }

  /** A contact form whose e-mail holds a space: 400 "Invalid email", no mail. */
  lemma ContactSpaceInEmailRejected(env: Env, transportReady: bool, send: SendOutcome)
    ensures var fields := map["name" := "Jo", "email" := "a b@c.com", "subject" := "Hi", "message" := "Hello"];
            var r := ContactHandler.ContactOutcome(env, transportReady, ContactHandler.ContactRequest("POST", Some(fields)), send);
            && r.response == Json(400, false, InvalidEmail)
            && r.mail.None?
  {
    var fields := map["name" := "Jo", "email" := "a b@c.com", "subject" := "Hi", "message" := "Hello"];
    ContactRequiredFields(fields);
    assert AllGiven(fields, ContactRequired);
    EmailExamples();
    assert !ContactHandler.ValidContact(fields);
    var req := ContactHandler.ContactRequest("POST", Some(fields));
    var r := ContactHandler.ContactOutcome(env, transportReady, req, send);
    assert !ContactHandler.Accepted(req);
  }
}
