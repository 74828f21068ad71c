# Engineers India form handlers — a Dafny model

This project models the decision logic of the two Cloud Functions that take
submissions from the Engineers India website (`functions/index.js`):

- `submitContact` takes a JSON contact form. It checks the method, the four
  required fields and the e-mail syntax, mails a notification to three fixed
  addresses, then fans out instant-message alerts. It answers 204, 405, 400,
  500 or 200.
- `submitQuote` takes a multipart quote form with file attachments. The
  parser's field events build a field map, in which the last write wins.
  Each finished file write is pushed onto `files` and `uploadedFiles` in
  lockstep. The form is validated and mailed with the files attached. A
  `finally` block deletes every staged file on every exit of a `POST`. Every
  failure inside its `try` block answers 500 with the error's message.

Around these sit three helpers. The e-mail syntax check
`/^[^\s@]+@[^\s@]+\.[^\s@]+$/` is the first. The second is the lazily built,
process-wide mail transport (`getTransporter`). The third is the alert loop
`sendWhatsAppAlerts`.

Modules, one per component:

| module | file | what it holds |
|---|---|---|
| `Runtime` | runtime.dfy | `Option`, `Result` for thrown errors, JavaScript truthiness, `v \|\| fallback`, the environment |
| `Http` | http.dfy | responses, how `sendMail` settles, shared response texts |
| `EmailSyntax` | email_syntax.dfy | the regular expression as a language, as a characterisation and as an executable automaton, proved equal |
| `RequiredFields` | required_fields.dfy | field presence under truthiness, the two required-field lists |
| `Staging` | staging.dfy | parser events, `fields`/`files`/`uploadedFiles` as a class, the cleanup loop |
| `Notification` | notification.dfy | recipients, subjects, template values with defaults, attachments |
| `Alerts` | alerts.dfy | the webhook fan-out loop |
| `Transport` | transport.dfy | the memoised transport as a class with an optional field |
| `ContactHandler`, `QuoteHandler` | contact_handler.dfy, quote_handler.dfy | each handler as a pure decision function plus a method that runs it against the mailer, staging, alerts and cleanup |
| `Scenarios` | scenarios.dfy | worked requests |

Each handler has two parts. A decision function (`ContactOutcome`,
`QuoteOutcome`) maps the inputs to the response and to the message handed to
`sendMail`. Its `ensures` clauses state the status-code properties and
that the mail is exactly the notification built from the submitted fields. A method
(`SubmitContact`, `SubmitQuote`) runs the imperative parts and is proved to
produce exactly that decision. Those parts are the transport cache, the
staging object, the alert loop and the cleanup loop. The method also states
what it does to the mailer and to scratch storage, and which alerts it sends.

Inputs the code gets from outside are parameters:

- the request method and body;
- the parser's events and how it settled;
- whether the transport can be built (the environment);
- how `sendMail` settles;
- whether each webhook call succeeds;
- the scratch storage's paths, and which of them cannot be deleted.

### Where the code departs from the expected behaviour

The model follows the code in each case.

- **Quote failures are 500, not 400-class.** A malformed or incomplete
  request would be expected to get a 400-class answer, as the contact
  handler gives one. In the quote handler, an empty body, a parser error, a
  parse timeout, a missing field and a malformed e-mail are all thrown
  inside the `try` block. They are answered with 500 and the error's
  message (functions/index.js:166-168, 222-228, 282-285). `QuoteOutcome`
  proves that the quote handler never answers 400.
- **Alert order is fixed.** Alerts to different numbers are independent and
  could be sent concurrently. The code awaits them one after another in
  `NOTIFICATION_NUMBERS` order, and the model keeps that order.

### Other notes

- **Recipient lists.** The recipients are the ones in the code. They differ
  between the two handlers.
- **Preflight handling.** The contact handler runs behind the `cors`
  middleware, which answers a preflight `OPTIONS` with 204 before the
  handler body runs. The handler's own check at line 69 gives the same 204,
  so the model has one `OPTIONS` case. The quote handler sets its CORS
  headers itself and answers `OPTIONS` with 204 at lines 134-136.

## Model

| member | source | states |
|---|---|---|
| `Runtime.Or` | engineers-india-firebase/functions/index.js:89-91 | `v \|\| fallback`: a truthy value is kept, `undefined` or `""` gives the fallback; the result is empty only when both are |
| `RequiredFields.Lookup` | engineers-india-firebase/functions/index.js:218 | reading `fields.name` gives the sent value, or `undefined` when the field was not sent |
| `RequiredFields.AllGiven` | engineers-india-firebase/functions/index.js:75 | the required-field check passes iff every listed field is present and non-empty |
| `RequiredFields.ContactRequiredFields` | engineers-india-firebase/functions/index.js:75 | the contact check passes iff `name`, `email`, `subject` and `message` are all given |
| `RequiredFields.QuoteRequiredFields` | engineers-india-firebase/functions/index.js:222 | the quote check passes iff `company`, `contact_person`, `email`, `component_type` and `description` are all given |
| `EmailSyntax.EmailRegexTest` | engineers-india-firebase/functions/index.js:79-80 | the test accepts exactly the strings of the regex's language, and exactly those with no whitespace, one `@` after a non-empty local part, and a domain with an interior `.` |
| `EmailSyntax.ScanMatchesExpected` | engineers-india-firebase/functions/index.js:226 | on every prefix, the automaton of the expression is in the state that the prefix's shape predicts |
| `EmailSyntax.FirstAtAppend` | engineers-india-firebase/functions/index.js:226 | appending a character moves the first `@` only when there was none and the character is `@` |
| `EmailSyntax.InteriorDotAppend` | engineers-india-firebase/functions/index.js:226 | a domain gains an interior dot by one more character iff it had one or ended in a dot after another character |
| `EmailSyntax.DomainStateStep` | engineers-india-firebase/functions/index.js:226 | after the `@`, one more non-space character moves the predicted state exactly as the automaton moves |
| `EmailSyntax.ExpectedStep` | engineers-india-firebase/functions/index.js:226 | one more character moves the predicted state of any prefix exactly as the automaton moves |
| `EmailSyntax.ExpectedDoneIffWellFormed` | engineers-india-firebase/functions/index.js:226 | the accepting state is reached iff the string satisfies the characterisation |
| `EmailSyntax.SliceInClass` | engineers-india-firebase/functions/index.js:226 | a slice of `[^\s@]` characters is a run of the class |
| `EmailSyntax.PatternImpliesWellFormed` | engineers-india-firebase/functions/index.js:226 | a string of the regex's language has no whitespace, one `@` and a domain with an interior `.` |
| `EmailSyntax.WellFormedImpliesPattern` | engineers-india-firebase/functions/index.js:226 | a string of that shape splits as local part, `@`, head, `.`, tail, all non-empty runs of `[^\s@]` |
| `EmailSyntax.PatternIffWellFormed` | engineers-india-firebase/functions/index.js:79 | the regex's language equals the characterisation |
| `EmailSyntax.EmailExamples` | engineers-india-firebase/functions/index.js:79 | `a@b.co` is accepted; `a@b`, `a b@c.com` and `""` are rejected |
| `Staging.EventsSnoc` | engineers-india-firebase/functions/index.js:177-194 | one more parser event changes `fields`, `files` and `uploadedFiles` by that event alone |
| `Staging.LastWriteWins` | engineers-india-firebase/functions/index.js:177-180 | a repeated field takes the value of its last occurrence |
| `Staging.FieldSentIff` | engineers-india-firebase/functions/index.js:178 | a field is in the map iff some event sent it |
| `Staging.FilesLockstep` | engineers-india-firebase/functions/index.js:190-194 | `files` and `uploadedFiles` have equal length and the same path at every position |
| `Staging.FilesOfAppend` | engineers-india-firebase/functions/index.js:191-192 | staged files are listed in the order their writes finished |
| `Staging.FilesFromEvents` | engineers-india-firebase/functions/index.js:182-194 | every staged file comes from a finished write |
| `Staging.StagingArea.constructor` | engineers-india-firebase/functions/index.js:174-175 | a fresh request starts with no fields, no files and nothing to delete |
| `Staging.StagingArea.OnField` | engineers-india-firebase/functions/index.js:177-180 | a field event overwrites that one key and leaves both arrays alone |
| `Staging.StagingArea.OnFileFinished` | engineers-india-firebase/functions/index.js:190-194 | a finished write appends to both arrays in lockstep and leaves the fields alone |
| `Staging.StagingArea.Consume` | engineers-india-firebase/functions/index.js:174-195 | after the parser's events the object holds exactly the field map, file list and cleanup list that the events define, in lockstep |
| `Staging.PathSet` | engineers-india-firebase/functions/index.js:288 | the set of paths the cleanup list names |
| `Staging.AfterCleanup` | engineers-india-firebase/functions/index.js:286-290 | after cleanup no listed path remains except one whose deletion threw; no other path changes |
| `Staging.Cleanup` | engineers-india-firebase/functions/index.js:286-290 | the loop deletes each listed path if it exists, swallows deletion errors, returns no error, and leaves scratch storage as `AfterCleanup` says |
| `Staging.CleanupIdempotent` | engineers-india-firebase/functions/index.js:289 | running the cleanup again changes nothing |
| `Staging.CleanupAbsentIsNoop` | engineers-india-firebase/functions/index.js:289 | deleting an already-absent path is a no-op |
| `Staging.NoResidue` | engineers-india-firebase/functions/index.js:286-290 | when every deletion succeeds, staging then cleaning up leaves no staged file and every other path as it was |
| `Notification.ContactSubject` | engineers-india-firebase/functions/index.js:102 | the subject is `Contact: `, then the form's subject, then ` - `, then the name |
| `Notification.QuoteSubject` | engineers-india-firebase/functions/index.js:258 | the subject is `Quote: `, then the company, then ` - `, then the component type |
| `Notification.NewlinesToBr` | engineers-india-firebase/functions/index.js:93 | the message has no line feed left; a message without one is unchanged; a single line feed becomes `<br>` (with `NewlinesToBrAppend` this fixes the result for every message) |
| `Notification.NewlinesToBrAppend` | engineers-india-firebase/functions/index.js:93 | the replacement distributes over concatenation |
| `Notification.ContactDetailsOf` | engineers-india-firebase/functions/index.js:84-97 | name, e-mail and subject shown as sent; company and phone shown as sent when given, else `Not provided`; the message is the sent message with each line feed replaced by `<br>` |
| `Notification.QuoteDetailsOf` | engineers-india-firebase/functions/index.js:231-252 | the five required values shown as sent; phone, quantity, material and timeline shown as sent when given, else `N/A`; the attached-files count appears iff there are files, and equals their number |
| `Notification.AttachmentsOf` | engineers-india-firebase/functions/index.js:260 | one `{filename: originalname, path}` per staged file, in the same order |
| `Notification.ContactMessage` | engineers-india-firebase/functions/index.js:99-105 | `from` is `EMAIL_USER`; `to` is the three contact recipients; subject `Contact: subject - name`; the body shows `ContactDetailsOf` the fields; no attachments; `replyTo` is the sent e-mail |
| `Notification.QuoteMessage` | engineers-india-firebase/functions/index.js:255-261 | `from` is `EMAIL_USER`; `to` is the three quote recipients; subject `Quote: company - component_type`; the body shows `QuoteDetailsOf` the fields and the file count; attachments are the staged files with their original names; no `replyTo` |
| `Notification.AttachmentsAreStaged` | engineers-india-firebase/functions/index.js:255-261 | the attachments follow `uploadedFiles` position by position, so every attached path is deleted by the cleanup |
| `Alerts.Headline` | engineers-india-firebase/functions/index.js:40-41 | the first line of a quote alert starts with a bell, of a contact alert with a telephone |
| `Alerts.AlertText` | engineers-india-firebase/functions/index.js:39-42 | the alert opens with a bell for a quote and a telephone for a contact, then the headline, a `From:` line with the company name, and the `Check:` mailbox line |
| `Alerts.PlannedCalls` | engineers-india-firebase/functions/index.js:38-62 | no webhook URL means no calls; otherwise one call per notification number, in order, with the text for the alert type |
| `Alerts.SendWhatsAppAlerts` | engineers-india-firebase/functions/index.js:44-61 | the loop makes exactly the planned calls and records each call's success; a failed call neither stops the loop nor throws |
| `Transport.CacheAfter` | engineers-india-firebase/functions/index.js:18-33 | a built transport is kept; otherwise it is built from the credentials when both are given, and stays unbuilt when one is missing |
| `Transport.CacheStable` | engineers-india-firebase/functions/index.js:19 | once built, the transport survives every later call whatever the environment |
| `Transport.Mailer.constructor` | engineers-india-firebase/functions/index.js:16 | the transport starts unbuilt |
| `Transport.Mailer.GetTransporter` | engineers-india-firebase/functions/index.js:18-33 | returns the cached transport, or builds and caches it; throws "Email configuration missing" only when unbuilt and a credential is missing |
| `ContactHandler.ContactOutcome` | engineers-india-firebase/functions/index.js:65-122 | OPTIONS gives 204 and other non-POST methods 405 `{success: false, message: "Method not allowed"}`. A missing field gives 400 "Missing required fields" and a bad e-mail 400 "Invalid email", with no mail. Mail is attempted iff the form is valid and the transport exists. Any throw gives 500 "Failed to send. Call +91 9150400011". 200 `{success: true, message: "Message sent successfully!"}` iff mail was sent. The mail is exactly `ContactMessage` of the body |
| `ContactHandler.SubmitContact` | engineers-india-firebase/functions/index.js:65-122 | the handler answers as `ContactOutcome`; it touches the transport only for a valid form; alerts go out only after a 200 and do not change the answer |
| `QuoteHandler.Failure` | engineers-india-firebase/functions/index.js:282-285 | the catch answers 500 with the error's message, or `Failed to submit. Please try again or call +91 9150400011` when that message is empty |
| `QuoteHandler.QuoteOutcome` | engineers-india-firebase/functions/index.js:125-293 | OPTIONS 204, GET 200 page, other non-POST 405 `{success: false, message: "Method not allowed"}`, none staging anything. On POST every failure is 500 with its own message, never 400. A JSON 200 is `{success: true}` with the "Quote request submitted successfully!…" text, and happens iff the mail was sent. Mail is attempted iff the form parsed and validated and the transport exists. The mail is exactly `QuoteMessage` of the parsed fields and files, and its attachment paths are the staged paths |
| `QuoteHandler.SubmitQuote` | engineers-india-firebase/functions/index.js:125-293 | the handler answers as `QuoteOutcome`; on every POST exit scratch storage ends as the cleanup of the staged paths leaves it; alerts go out only after a 200 |
| `Scenarios.AcmeEmailAccepted` | engineers-india-firebase/functions/index.js:226 | `jo@acme.com` passes the e-mail test |
| `Scenarios.AcmeQuoteSucceeds` | engineers-india-firebase/functions/index.js:217-275 | a complete quote form without files, with mail working, gives 200, one mail without attachments and nothing staged |
| `Scenarios.MissingDescriptionRejected` | engineers-india-firebase/functions/index.js:222-223 | the same form without `description` gives 500 "Missing required fields" and no mail |
| `Scenarios.TwoFilesMailFails` | engineers-india-firebase/functions/index.js:255-290 | with two files and a rejecting relay: 500 with the relay's message, both files attached, both deleted afterwards |
| `Scenarios.ContactSpaceInEmailRejected` | engineers-india-firebase/functions/index.js:79-82 | a contact form whose e-mail holds a space gives 400 "Invalid email" and no mail |

## Left out

- Multipart parsing by `busboy` is not modelled. Its effect is an input: the sequence of field and finished-write events it delivered, and whether it finished, failed with a message or timed out. A `Busboy` constructor that throws on a bad content type is the `Failed` case with no events.
- Stream piping, the 30-second parse timer and the 100 ms delay after the parser finishes are not modelled; they are concurrency and timing. The finished writes are taken as given. So the race is not captured in which a write finishing after the parse settles is neither attached nor deleted. A partly written file that never finished is not captured either: it is not in `uploadedFiles`, and the code leaves it behind.
- `nodemailer`, `fetch`, the `cors` middleware and the Firebase routing are foreign calls. Their results are inputs. `sendMail` resolves or rejects with a message. Each webhook call succeeds or fails. The transport exists iff it was cached or both credentials are truthy.
- The HTML markup of both notification bodies and of the GET status page is not modelled. Nor is the `toLocaleString('en-IN')` timestamp, which depends on clock and locale. A body is the record of the values interpolated into the template.
- The temporary path `${Date.now()}-${filename}` under `os.tmpdir()` depends on the clock. Each finished-write event carries its path.
- The `health` endpoint and all `console` logging are not modelled.
- Field names are plain map keys. A field named like an `Object.prototype` member (`__proto__`, `toString`) behaves differently on a JavaScript object; this is not modelled.
- Response headers (the CORS headers) are not modelled; only status and body are.
- Field values are strings. The contact handler's JSON body could carry numbers, booleans or objects, whose truthiness and string conversion differ; these are not modelled. An absent body (`undefined`/`null`, where destructuring throws) is modelled and gives 500.
- `Alerts.SendWhatsAppAlerts`: the outer `try`/`catch` around the loop is not modelled, because nothing before the loop can throw. Whether a webhook call succeeds is a function of the call alone.
- `Staging.Cleanup`: a deletion that throws (for example, permission denied) is modelled as a path in `undeletable`. The path stays, and the error is swallowed as in the code.
