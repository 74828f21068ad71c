/** The notification e-mail the handlers hand to the mail relay: fixed
    recipient lists, subject lines, the values interpolated into the HTML body
    (with the defaults for optional fields) and the attachment list.

    The HTML markup and the submission timestamp are not modelled; a body is
    the typed record of the values the template shows. */
module Notification {
  import opened Runtime
  import opened RequiredFields
  import opened Staging

  /** `to` of the contact notification (functions/index.js line 101). */
  const ContactRecipients: seq<string> := ["ei1995@gmail.com", "gayatri.vadivu@gmail.com", "info@engineersindia.in"]

  /** `to` of the quote notification (functions/index.js line 257). */
  const QuoteRecipients: seq<string> := ["happyguy0809@gmail.com", "ei1995@gmail.com", "gayatri.vadivu@gmail.com"]

  /** Shown for a missing company or phone in the contact body. */
  const NotProvided: string := "Not provided"

  /** Shown for a missing phone, quantity, material or timeline in the quote body. */
  const NotAvailable: string := "N/A"

  /** `Contact: ${subject} - ${name}`: the tag, the subject, a dash, the name. */
  function ContactSubject(subject: string, name: string): (r: string)
    ensures |r| == 12 + |subject| + |name|
    ensures r[..9] == "Contact: "
    ensures r[9..9 + |subject|] == subject
    ensures r[9 + |subject|..12 + |subject|] == " - "
    ensures r[12 + |subject|..] == name
  {
    "Contact: " + subject + " - " + name
  }

  /** `Quote: ${company} - ${component_type}`. */
  function QuoteSubject(company: string, componentType: string): (r: string)
    ensures |r| == 10 + |company| + |componentType|
    ensures r[..7] == "Quote: "
    ensures r[7..7 + |company|] == company
    ensures r[7 + |company|..10 + |company|] == " - "
    ensures r[10 + |company|..] == componentType
  {
    "Quote: " + company + " - " + componentType
  }

  /** `message.replace(/\n/g, '<br>')`: every line feed becomes a `<br>`. */
  function NewlinesToBr(s: string): (r: string)
    ensures '\n' !in r
    ensures '\n' !in s ==> r == s
    ensures s == "\n" ==> r == "<br>"
    ensures |r| >= |s|
  {
    if s == [] then []
    else (if s[0] == '\n' then "<br>" else [s[0]]) + NewlinesToBr(s[1..])
  }

  /** The replacement works piece by piece: it distributes over concatenation. */
  lemma {:induction false} NewlinesToBrAppend(a: string, b: string)
    ensures NewlinesToBr(a + b) == NewlinesToBr(a) + NewlinesToBr(b)
  {
    if a != [] {
      var head := if a[0] == '\n' then "<br>" else [a[0]];
      assert (a + b)[0] == a[0];
      assert (a + b)[1..] == a[1..] + b;
      NewlinesToBrAppend(a[1..], b);
      assert NewlinesToBr(a + b) == head + (NewlinesToBr(a[1..]) + NewlinesToBr(b));
      assert NewlinesToBr(a) == head + NewlinesToBr(a[1..]);
    } else {
      assert a + b == b;
    }
  }

  /** Values shown in the contact notification. */
  datatype ContactDetails = ContactDetails(
    name: string, company: string, email: string, phone: string, subject: string, message: string)

  /** Values shown in the quote notification; `attachedFiles` is the count in
      the "Attached Files" line, which appears only when files were staged. */
  datatype QuoteDetails = QuoteDetails(
    company: string, contactPerson: string, email: string, phone: string,
    componentType: string, quantity: string, material: string, timeline: string,
    description: string, attachedFiles: Option<nat>)

  /** `{filename: f.originalname, path: f.path}`. */
  datatype Attachment = Attachment(filename: string, path: string)

  datatype MailBody = ContactMail(contact: ContactDetails) | QuoteMail(quote: QuoteDetails)

  /** The object passed to `sendMail`. */
  datatype MailMessage = MailMessage(
    from: Option<string>, to: seq<string>, subject: string, body: MailBody,
    attachments: seq<Attachment>, replyTo: Option<string>)

  /** The contact template's values: required fields as sent, company and
      phone defaulted, line feeds of the message turned into `<br>`. */
  function ContactDetailsOf(fields: FieldMap): (d: ContactDetails)
    requires AllGiven(fields, ContactRequired)
    ensures Lookup(fields, "name") == Some(d.name) && Lookup(fields, "email") == Some(d.email)
    ensures Lookup(fields, "subject") == Some(d.subject)
    ensures d.company != "" && d.phone != ""
    ensures Given(fields, "company") ==> d.company == fields["company"]
    ensures Given(fields, "phone") ==> d.phone == fields["phone"]
    ensures !Given(fields, "company") ==> d.company == NotProvided
    ensures !Given(fields, "phone") ==> d.phone == NotProvided
    ensures "message" in fields && d.message == NewlinesToBr(fields["message"])
    ensures '\n' !in d.message
  {
    ContactRequiredFields(fields);
    ContactDetails(
      fields["name"], Or(Lookup(fields, "company"), NotProvided), fields["email"],
      Or(Lookup(fields, "phone"), NotProvided), fields["subject"], NewlinesToBr(fields["message"]))
  }

  /** The quote template's values: required fields as sent, optional ones
      defaulted to `N/A`, and the file count only when there are files. */
  function QuoteDetailsOf(fields: FieldMap, fileCount: nat): (d: QuoteDetails)
    requires AllGiven(fields, QuoteRequired)
    ensures Lookup(fields, "company") == Some(d.company)
    ensures Lookup(fields, "contact_person") == Some(d.contactPerson)
    ensures Lookup(fields, "email") == Some(d.email)
    ensures Lookup(fields, "component_type") == Some(d.componentType)
    ensures Lookup(fields, "description") == Some(d.description)
    ensures d.phone != "" && d.quantity != "" && d.material != "" && d.timeline != ""
    ensures Given(fields, "phone") ==> d.phone == fields["phone"]
    ensures Given(fields, "quantity") ==> d.quantity == fields["quantity"]
    ensures Given(fields, "material") ==> d.material == fields["material"]
    ensures Given(fields, "timeline") ==> d.timeline == fields["timeline"]
    ensures !Given(fields, "phone") ==> d.phone == NotAvailable
    ensures !Given(fields, "quantity") ==> d.quantity == NotAvailable
    ensures !Given(fields, "material") ==> d.material == NotAvailable
    ensures !Given(fields, "timeline") ==> d.timeline == NotAvailable
    ensures d.attachedFiles.Some? <==> fileCount > 0
    ensures d.attachedFiles.Some? ==> d.attachedFiles.value == fileCount
  {
    QuoteRequiredFields(fields);
    QuoteDetails(
      fields["company"], fields["contact_person"], fields["email"],
      Or(Lookup(fields, "phone"), NotAvailable), fields["component_type"],
      Or(Lookup(fields, "quantity"), NotAvailable), Or(Lookup(fields, "material"), NotAvailable),
      Or(Lookup(fields, "timeline"), NotAvailable), fields["description"],
      if fileCount > 0 then Some(fileCount) else None)
  }

  /** `files.map(f => ({filename: f.originalname, path: f.path}))`. */
  function AttachmentsOf(files: seq<StagedFile>): (r: seq<Attachment>)
    ensures |r| == |files|
    ensures forall k :: 0 <= k < |files| ==> r[k].filename == files[k].originalName && r[k].path == files[k].path
  {
    if files == [] then []
    else [Attachment(files[0].originalName, files[0].path)] + AttachmentsOf(files[1..])
  }

  /** The attachment list follows `uploadedFiles` position by position, so
      every attached path is one the cleanup deletes. */
  lemma AttachmentsAreStaged(events: seq<ParseEvent>)
    ensures |AttachmentsOf(FilesOf(events))| == |UploadedOf(events)|
    ensures forall k :: 0 <= k < |UploadedOf(events)| ==> AttachmentsOf(FilesOf(events))[k].path == UploadedOf(events)[k]
    ensures forall a :: a in AttachmentsOf(FilesOf(events)) ==> a.path in UploadedOf(events)
  {
    FilesLockstep(events);
    var atts, up := AttachmentsOf(FilesOf(events)), UploadedOf(events);
    forall a | a in atts
      ensures a.path in up
    {
      var k :| 0 <= k < |atts| && atts[k] == a;
      assert up[k] == a.path;
    }
  }

  /** The contact notification (functions/index.js lines 99-105). */
  function ContactMessage(env: Env, fields: FieldMap): (m: MailMessage)
    requires AllGiven(fields, ContactRequired)
    ensures m.from == env.emailUser
    ensures m.to == ContactRecipients
    ensures "subject" in fields && "name" in fields
    ensures m.subject == ContactSubject(fields["subject"], fields["name"])
    ensures m.body == ContactMail(ContactDetailsOf(fields))
    ensures m.attachments == []
    ensures m.replyTo == Lookup(fields, "email") && m.replyTo.Some?
  {
    var d := ContactDetailsOf(fields);
    MailMessage(env.emailUser, ContactRecipients, ContactSubject(d.subject, d.name), ContactMail(d), [], Some(d.email))
  }

  /** The quote notification (functions/index.js lines 255-261). */
  function QuoteMessage(env: Env, fields: FieldMap, files: seq<StagedFile>): (m: MailMessage)
    requires AllGiven(fields, QuoteRequired)
    ensures m.from == env.emailUser
    ensures m.to == QuoteRecipients
    ensures "company" in fields && "component_type" in fields
    ensures m.subject == QuoteSubject(fields["company"], fields["component_type"])
    ensures m.body == QuoteMail(QuoteDetailsOf(fields, |files|))
    ensures m.attachments == AttachmentsOf(files)
    ensures m.replyTo.None?
  {
    var d := QuoteDetailsOf(fields, |files|);
    MailMessage(env.emailUser, QuoteRecipients, QuoteSubject(d.company, d.componentType), QuoteMail(d), AttachmentsOf(files), None)
  }
}
