/** Required-field checks of the two handlers: a field counts as given when
    it is present and truthy, so an absent field and an empty string are both
    missing. */
module RequiredFields {
  import opened Runtime

  /** Named text fields of a submission (the JSON body of a contact request,
      the multipart fields of a quote request). */
  type FieldMap = map<string, string>

  /** The value of `fields.name`, `undefined` when the field was not sent. */
  function Lookup(fields: FieldMap, name: string): (v: Option<string>)
    ensures v.Some? <==> name in fields
    ensures v.Some? ==> v.value == fields[name]
  {
    if name in fields then Some(fields[name]) else None
  }

  /** The field is present with a non-empty value. */
  predicate Given(fields: FieldMap, name: string) {
    Truthy(Lookup(fields, name))
  }

  /** `!a || !b || ...` is false: every listed field is given. */
  function AllGiven(fields: FieldMap, names: seq<string>): (ok: bool)
    ensures ok <==> forall k :: 0 <= k < |names| ==> Given(fields, names[k])
  {
    if names == [] then true
    else Given(fields, names[0]) && AllGiven(fields, names[1..])
  }

  /** Fields the contact handler insists on. */
  const ContactRequired: seq<string> := ["name", "email", "subject", "message"]

  /** Fields the quote handler insists on. */
  const QuoteRequired: seq<string> := ["company", "contact_person", "email", "component_type", "description"]

  /** The contact check passes exactly when all four of its fields are given. */
  lemma ContactRequiredFields(fields: FieldMap)
    ensures AllGiven(fields, ContactRequired) <==>
      Given(fields, "name") && Given(fields, "email") && Given(fields, "subject") && Given(fields, "message")
  {
    assert ContactRequired[0] == "name" && ContactRequired[1] == "email";
    assert ContactRequired[2] == "subject" && ContactRequired[3] == "message";
  }

  /** The quote check passes exactly when all five of its fields are given. */
  lemma QuoteRequiredFields(fields: FieldMap)
    ensures AllGiven(fields, QuoteRequired) <==>
      && Given(fields, "company") && Given(fields, "contact_person") && Given(fields, "email")
      && Given(fields, "component_type") && Given(fields, "description")
  {
    assert QuoteRequired[0] == "company" && QuoteRequired[1] == "contact_person";
    assert QuoteRequired[2] == "email" && QuoteRequired[3] == "component_type";
    assert QuoteRequired[4] == "description";
  }
}
