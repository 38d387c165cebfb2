/** The validation rules of the contact route (`contactValidation`): one rule chain per field,
    evaluated in order with every failing check reported, and the sanitisers (`trim`,
    `normalizeEmail`) that rewrite the body the controller then reads. The library's `isEmail`
    and `normalizeEmail` are parameters. */
module ContactValidation {
  import opened Wrappers
  import opened Strings
  import opened Patterns

  /** The submitted fields; `None` is a field the request did not send. */
  datatype ContactBody = ContactBody(
    name: Option<string>,
    email: Option<string>,
    phone: Option<string>,
    company: Option<string>,
    service: Option<string>,
    message: Option<string>,
    botField: Option<string>   // the honeypot field "bot-field"
  )

  /** One entry of `validationResult(req).array()`: the field and the message. */
  datatype FieldError = FieldError(field: string, msg: string)

  /** The collected errors and the body as the sanitisers left it. */
  datatype Validated = Validated(errors: seq<FieldError>, body: ContactBody)

  /** The service codes the `isIn` rule admits. */
  const ServiceCodes: seq<string> :=
    ["logistics", "import-export", "air-ocean", "multimodal", "supply-chain", "bonded"]

  /** The library's string view of a field: a missing field reads as the empty string. */
  function FieldText(o: Option<string>): string { o.GetOr("") }

  /** The class `[a-zA-Z\s\-'\.]`. */
  predicate IsNameChar(c: char) {
    IsAsciiLetter(c) || IsWhitespace(c) || c == '-' || c == '\'' || c == '.'
  }

  /** The fields of the form, in the order their rules run. */
  const FieldNames: seq<string> := ["name", "email", "phone", "company", "service", "message", "bot-field"]

  // The messages of the checks.
  const NameLengthMsg := "Name must be between 2 and 100 characters"
  const NameCharsMsg := "Name can only contain letters, spaces, hyphens, apostrophes, and periods"
  const EmailFormatMsg := "Please provide a valid email address"
  const EmailLengthMsg := "Email must be less than 255 characters"
  const PhoneMsg := "Please provide a valid phone number"
  const CompanyMsg := "Company name must be less than 200 characters"
  const ServiceMsg := "Please select a valid service type"
  const MessageMsg := "Message must be between 10 and 2000 characters"
  const SpamMsg := "Spam detected"

  /** One check of a rule chain: nothing when it passes, else its message against `field`. */
  function Check(field: string, passes: bool, msg: string): (r: seq<FieldError>)
    ensures AllAbout(r, field)
    ensures r == [] <==> passes
  {
    if passes then [] else [FieldError(field, msg)]
  }

  lemma AllAboutConcat(a: seq<FieldError>, b: seq<FieldError>, field: string)
    requires AllAbout(a, field) && AllAbout(b, field)
    ensures AllAbout(a + b, field)
  {
  }

  function NameErrors(name: Option<string>): (r: seq<FieldError>)
    ensures AllAbout(r, "name")
  {
    var v := Trim(FieldText(name));
    var length := Check("name", 2 <= |v| <= 100, NameLengthMsg);
    var chars := Check("name", |v| > 0 && All(v, IsNameChar), NameCharsMsg);
    AllAboutConcat(length, chars, "name");
    length + chars
  }

  /** `isEmail` checks the raw value; `isLength({max: 255})` checks the normalised one. */
  function EmailErrors(email: Option<string>, isEmail: string -> bool, normalizeEmail: string -> string): (r: seq<FieldError>)
    ensures AllAbout(r, "email")
  {
    var v := FieldText(email);
    var format := Check("email", isEmail(v), EmailFormatMsg);
    var length := Check("email", |normalizeEmail(v)| <= 255, EmailLengthMsg);
    AllAboutConcat(format, length, "email");
    format + length
  }

  /** `optional({checkFalsy: true})` skips a missing or empty phone. */
  function PhoneErrors(phone: Option<string>): (r: seq<FieldError>)
    ensures AllAbout(r, "phone")
  {
    Check("phone", !Truthy(phone) || IsPhonePattern(phone.value), PhoneMsg)
  }

  function CompanyErrors(company: Option<string>): (r: seq<FieldError>)
    ensures AllAbout(r, "company")
  {
    Check("company", !Truthy(company) || |Trim(company.value)| <= 200, CompanyMsg)
  }

  function ServiceErrors(service: Option<string>): (r: seq<FieldError>)
    ensures AllAbout(r, "service")
  {
    Check("service", !Truthy(service) || service.value in ServiceCodes, ServiceMsg)
  }

  function MessageErrors(message: Option<string>): (r: seq<FieldError>)
    ensures AllAbout(r, "message")
  {
    var v := Trim(FieldText(message));
    Check("message", 10 <= |v| <= 2000, MessageMsg)
  }

  /** `optional()` skips only a missing honeypot; the custom check throws "Spam detected" for
      any non-empty value. */
  function BotFieldErrors(botField: Option<string>): (r: seq<FieldError>)
    ensures AllAbout(r, "bot-field")
  {
    Check("bot-field", !(botField.Some? && |botField.value| > 0), SpamMsg)
  }

  /** The body after the sanitisers: name and message trimmed, a present company trimmed, the
      e-mail normalised. */
  function Sanitize(b: ContactBody, normalizeEmail: string -> string): (r: ContactBody)
    ensures r.phone == b.phone && r.service == b.service && r.botField == b.botField
    ensures r.name.Some? <==> b.name.Some?
    ensures r.email.Some? <==> b.email.Some?
    ensures r.company.Some? <==> b.company.Some?
    ensures r.message.Some? <==> b.message.Some?
    ensures !Truthy(b.company) ==> r.company == b.company
    ensures r.email.Some? ==> r.email.value == normalizeEmail(b.email.value)
  {
    b.(name := if b.name.Some? then Some(Trim(b.name.value)) else None,
       email := if b.email.Some? then Some(normalizeEmail(b.email.value)) else None,
       company := if Truthy(b.company) then Some(Trim(b.company.value)) else b.company,
       message := if b.message.Some? then Some(Trim(b.message.value)) else None)
  }

  /** The whole rule list, in declaration order. */
  function ValidateContact(b: ContactBody, isEmail: string -> bool, normalizeEmail: string -> string): (r: Validated)
    ensures forall e :: e in r.errors ==> e.field in FieldNames
  {
    var e1, e2, e3 := NameErrors(b.name), EmailErrors(b.email, isEmail, normalizeEmail), PhoneErrors(b.phone);
    var e4, e5, e6, e7 := CompanyErrors(b.company), ServiceErrors(b.service), MessageErrors(b.message), BotFieldErrors(b.botField);
    SevenFields(e1, e2, e3, e4, e5, e6, e7);
    Validated(e1 + e2 + e3 + e4 + e5 + e6 + e7, Sanitize(b, normalizeEmail))
  }

  /** Seven per-field lists, concatenated, hold errors of the form's fields only. */
  lemma SevenFields(e1: seq<FieldError>, e2: seq<FieldError>, e3: seq<FieldError>, e4: seq<FieldError>,
                    e5: seq<FieldError>, e6: seq<FieldError>, e7: seq<FieldError>)
    requires AllAbout(e1, "name") && AllAbout(e2, "email") && AllAbout(e3, "phone") && AllAbout(e4, "company")
    requires AllAbout(e5, "service") && AllAbout(e6, "message") && AllAbout(e7, "bot-field")
    ensures forall e :: e in e1 + e2 + e3 + e4 + e5 + e6 + e7 ==> e.field in FieldNames
  {
  }

  /** Some error is reported against `field`. */
  predicate HasErrorFor(errors: seq<FieldError>, field: string) {
    exists e :: e in errors && e.field == field
  }

  /** Every error of `errors` is about `field`. */
  predicate AllAbout(errors: seq<FieldError>, field: string) {
    forall e :: e in errors ==> e.field == field
  }

  lemma HasErrorForConcat(a: seq<FieldError>, b: seq<FieldError>, field: string)
    ensures HasErrorFor(a + b, field) <==> HasErrorFor(a, field) || HasErrorFor(b, field)
  {
    if HasErrorFor(a + b, field) {
      var e :| e in a + b && e.field == field;
      assert e in a || e in b;
    }
    if HasErrorFor(a, field) {
      var e :| e in a && e.field == field;
      assert e in a + b;
    }
    if HasErrorFor(b, field) {
      var e :| e in b && e.field == field;
      assert e in a + b;
    }
  }

  lemma HasErrorForAbout(errors: seq<FieldError>, about: string, field: string)
    requires AllAbout(errors, about)
    ensures HasErrorFor(errors, field) <==> about == field && errors != []
  {
    if errors != [] && about == field {
      assert errors[0] in errors;
    }
  }

  /** Seven per-field lists, concatenated: the errors against `field` come from its own list. */
  lemma HasErrorForSeven(e1: seq<FieldError>, e2: seq<FieldError>, e3: seq<FieldError>, e4: seq<FieldError>,
                         e5: seq<FieldError>, e6: seq<FieldError>, e7: seq<FieldError>, field: string)
    requires AllAbout(e1, "name") && AllAbout(e2, "email") && AllAbout(e3, "phone") && AllAbout(e4, "company")
    requires AllAbout(e5, "service") && AllAbout(e6, "message") && AllAbout(e7, "bot-field")
    ensures HasErrorFor(e1 + e2 + e3 + e4 + e5 + e6 + e7, field) <==>
      || (field == "name" && e1 != []) || (field == "email" && e2 != [])
      || (field == "phone" && e3 != []) || (field == "company" && e4 != [])
      || (field == "service" && e5 != []) || (field == "message" && e6 != [])
      || (field == "bot-field" && e7 != [])
  {
    HasErrorForConcat(e1, e2, field);
    HasErrorForConcat(e1 + e2, e3, field);
    HasErrorForConcat(e1 + e2 + e3, e4, field);
    HasErrorForConcat(e1 + e2 + e3 + e4, e5, field);
    HasErrorForConcat(e1 + e2 + e3 + e4 + e5, e6, field);
    HasErrorForConcat(e1 + e2 + e3 + e4 + e5 + e6, e7, field);
    HasErrorForAbout(e1, "name", field);
    HasErrorForAbout(e2, "email", field);
    HasErrorForAbout(e3, "phone", field);
    HasErrorForAbout(e4, "company", field);
    HasErrorForAbout(e5, "service", field);
    HasErrorForAbout(e6, "message", field);
    HasErrorForAbout(e7, "bot-field", field);
  }

  /** The errors reported against one field are that field's own rule's errors. */
  lemma ErrorsOfField(b: ContactBody, isEmail: string -> bool, normalizeEmail: string -> string, field: string)
    ensures HasErrorFor(ValidateContact(b, isEmail, normalizeEmail).errors, field) <==>
      || (field == "name" && NameErrors(b.name) != [])
      || (field == "email" && EmailErrors(b.email, isEmail, normalizeEmail) != [])
      || (field == "phone" && PhoneErrors(b.phone) != [])
      || (field == "company" && CompanyErrors(b.company) != [])
      || (field == "service" && ServiceErrors(b.service) != [])
      || (field == "message" && MessageErrors(b.message) != [])
      || (field == "bot-field" && BotFieldErrors(b.botField) != [])
  {
    HasErrorForSeven(NameErrors(b.name), EmailErrors(b.email, isEmail, normalizeEmail), PhoneErrors(b.phone),
      CompanyErrors(b.company), ServiceErrors(b.service), MessageErrors(b.message), BotFieldErrors(b.botField), field);
  }

  // ---------------------------------------------------------------------------------------
  // The rules, field by field

  /** `name` passes iff its trimmed length is in [2, 100] and every character is a letter, white
      space, `-`, `'` or `.`. */
  lemma NameRule(b: ContactBody, isEmail: string -> bool, normalizeEmail: string -> string)
    ensures var v := Trim(FieldText(b.name));
      !HasErrorFor(ValidateContact(b, isEmail, normalizeEmail).errors, "name")
      <==> 2 <= |v| <= 100 && All(v, IsNameChar)
  {
    ErrorsOfField(b, isEmail, normalizeEmail, "name");
  }

  /** `message` passes iff its trimmed length is in [10, 2000]. */
  lemma MessageRule(b: ContactBody, isEmail: string -> bool, normalizeEmail: string -> string)
    ensures var v := Trim(FieldText(b.message));
      !HasErrorFor(ValidateContact(b, isEmail, normalizeEmail).errors, "message") <==> 10 <= |v| <= 2000
  {
    ErrorsOfField(b, isEmail, normalizeEmail, "message");
  }

  /** The boundary: nine characters fail, ten pass (the letters carry no white space to trim). */
  lemma MessageLengthBoundary()
    ensures MessageErrors(Some("Need aaaaa")) == []
    ensures MessageErrors(Some("Need aaaa")) != []
  {
    assert !IsWhitespace('N') && !IsWhitespace('a');
  }

  /** A missing or empty `phone` passes; any other value must match the phone pattern. */
  lemma PhoneRule(b: ContactBody, isEmail: string -> bool, normalizeEmail: string -> string)
    ensures !HasErrorFor(ValidateContact(b, isEmail, normalizeEmail).errors, "phone")
      <==> !Truthy(b.phone) || IsPhonePattern(b.phone.value)
  {
    ErrorsOfField(b, isEmail, normalizeEmail, "phone");
  }

  /** The pattern counts hyphens and parentheses towards its ten characters, so ten hyphens
      pass. */
  lemma PhoneOfHyphensPasses()
    ensures PhoneErrors(Some("----------")) == []
  {
    assert IsPhonePattern("----------");
  }

  /** A `+`, a country digit and a formatted number pass. */
  lemma PhoneFormattedPasses()
    ensures PhoneErrors(Some("+1(555)123-4567")) == []
  {
    assert AfterPlus("+1(555)123-4567") == "1(555)123-4567";
  }

  /** Nine digits are too few. */
  lemma PhoneOfNineDigitsFails()
    ensures PhoneErrors(Some("123456789")) != []
  {
    assert !IsPhonePattern("123456789");
  }

  /** A non-empty `company` must be at most 200 characters once trimmed. */
  lemma CompanyRule(b: ContactBody, isEmail: string -> bool, normalizeEmail: string -> string)
    ensures !HasErrorFor(ValidateContact(b, isEmail, normalizeEmail).errors, "company")
      <==> !Truthy(b.company) || |Trim(b.company.value)| <= 200
  {
    ErrorsOfField(b, isEmail, normalizeEmail, "company");
  }

  /** A non-empty `service` must be one of the six codes. */
  lemma ServiceRule(b: ContactBody, isEmail: string -> bool, normalizeEmail: string -> string)
    ensures !HasErrorFor(ValidateContact(b, isEmail, normalizeEmail).errors, "service")
      <==> !Truthy(b.service) || b.service.value in ServiceCodes
  {
    ErrorsOfField(b, isEmail, normalizeEmail, "service");
  }

  /** `email` passes iff the library accepts it and its normalised form is at most 255 long. */
  lemma EmailRule(b: ContactBody, isEmail: string -> bool, normalizeEmail: string -> string)
    ensures !HasErrorFor(ValidateContact(b, isEmail, normalizeEmail).errors, "email")
      <==> isEmail(FieldText(b.email)) && |normalizeEmail(FieldText(b.email))| <= 255
  {
    ErrorsOfField(b, isEmail, normalizeEmail, "email");
  }

  /** A non-empty honeypot always yields "Spam detected", whatever the other fields hold. */
  lemma SpamRule(b: ContactBody, isEmail: string -> bool, normalizeEmail: string -> string)
    requires b.botField.Some? && b.botField.value != ""
    ensures FieldError("bot-field", SpamMsg) in ValidateContact(b, isEmail, normalizeEmail).errors
  {
  }

  /** The submission is accepted (no error at all) iff every field's rule holds. */
  lemma AcceptedIff(b: ContactBody, isEmail: string -> bool, normalizeEmail: string -> string)
    ensures ValidateContact(b, isEmail, normalizeEmail).errors == [] <==>
      && NameErrors(b.name) == [] && EmailErrors(b.email, isEmail, normalizeEmail) == []
      && PhoneErrors(b.phone) == [] && CompanyErrors(b.company) == []
      && ServiceErrors(b.service) == [] && MessageErrors(b.message) == []
      && BotFieldErrors(b.botField) == []
  {
  }

  /** In an accepted submission the controller reads a present name, e-mail and message, the
      message is 10 to 2000 characters long and any service is a known code. */
  lemma AcceptedBodyShape(b: ContactBody, isEmail: string -> bool, normalizeEmail: string -> string)
    requires ValidateContact(b, isEmail, normalizeEmail).errors == []
    ensures var s := ValidateContact(b, isEmail, normalizeEmail).body;
      && s.name.Some? && 2 <= |s.name.value| <= 100
      && s.message.Some? && 10 <= |s.message.value| <= 2000
      && (Truthy(s.service) ==> s.service.value in ServiceCodes)
      && s.botField == b.botField && (s.botField.None? || s.botField.value == "")
  {
    AcceptedIff(b, isEmail, normalizeEmail);
  }
}
