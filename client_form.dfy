/** The browser side of the contact form (`app.js`): the e-mail and phone tests, the per-field
    check, the whole-form check that decides whether the form is sent, the endpoint choice and
    the notice shown after sending. Fields are values; showing or clearing a field's error in the
    page is not modelled beyond the verdict that carries the message. */
module ClientForm {
  import opened Wrappers
  import opened Strings
  import opened Patterns

  // ---------------------------------------------------------------------------------------
  // isValidEmail: /^[^\s@]+@[^\s@]+\.[^\s@]+$/

  /** The class `[^\s@]`. */
  predicate IsPlainChar(c: char) { !IsWhitespace(c) && c != '@' }

  /** The regex matches with its `@` at `i` and its `\.` at `j`. */
  predicate EmailSplitAt(s: string, i: nat, j: nat) {
    && 0 < i && i + 1 < j && j + 1 < |s|
    && s[i] == '@' && s[j] == '.'
    && All(s[..i], IsPlainChar) && All(s[i + 1..j], IsPlainChar) && All(s[j + 1..], IsPlainChar)
  }

  /** The regex accepts `s` under some choice of where its `@` and its `\.` fall. */
  ghost predicate EmailRegexMatches(s: string) {
    exists i: nat, j: nat :: EmailSplitAt(s, i, j)
  }

  /** There is a dot that is neither the first nor the last character. */
  predicate HasInnerDot(r: string) {
    |r| >= 3 && '.' in r[1..|r| - 1]
  }

  /** `isValidEmail`, read directly: a non-empty plain part, the first `@`, then a plain part
      with a dot strictly inside it. */
  function IsValidEmail(s: string): (r: bool)
    ensures r ==> '@' in s && forall k :: 0 <= k < |s| ==> !IsWhitespace(s[k])
  {
    match IndexOf(s, '@')
    case None => false
    case Some(i) =>
      var ok := i > 0 && All(s[..i], IsPlainChar) && All(s[i + 1..], IsPlainChar) && HasInnerDot(s[i + 1..]);
      if ok then
        assert s == s[..i] + [s[i]] + s[i + 1..];
        AllConcat(s[..i] + [s[i]], s[i + 1..], PlainOrAt);
        AllConcat(s[..i], [s[i]], PlainOrAt);
        assert All(s, PlainOrAt);
        ok
      else ok
  }

  /** A plain character or the `@`: the characters an accepted address is made of. */
  predicate PlainOrAt(c: char) { IsPlainChar(c) || c == '@' }

  /** The direct reading and the regex accept the same strings. */
  lemma EmailDirectIsRegex(s: string)
    ensures IsValidEmail(s) <==> EmailRegexMatches(s)
  {
    if IsValidEmail(s) {
      var i := IndexOf(s, '@').value;
      var j := InnerDotOf(s, i);
      assert EmailSplitAt(s, i, j);
    }
    if EmailRegexMatches(s) {
      var i: nat, j: nat :| EmailSplitAt(s, i, j);
      SplitIsDirect(s, i, j);
    }
  }

  /** The dot of an accepted address, as a position of the whole string. */
  lemma InnerDotOf(s: string, i: nat) returns (j: nat)
    requires IndexOf(s, '@') == Some(i) && i > 0
    requires All(s[..i], IsPlainChar) && All(s[i + 1..], IsPlainChar) && HasInnerDot(s[i + 1..])
    ensures EmailSplitAt(s, i, j)
  {
    var rest := s[i + 1..];
    var inner := rest[1..|rest| - 1];
    var k := IndexOf(inner, '.').value;
    j := i + 2 + k;
    assert s[j] == '.';
    assert s[i + 1..j] == rest[..k + 1];
    assert s[j + 1..] == rest[k + 2..];
    AllSlice(rest, 0, k + 1, IsPlainChar);
    AllSlice(rest, k + 2, |rest|, IsPlainChar);
  }

  /** A match of the regex is what the direct reading accepts. */
  lemma SplitIsDirect(s: string, i: nat, j: nat)
    requires EmailSplitAt(s, i, j)
    ensures IsValidEmail(s)
  {
    assert '@' !in s[..i];
    FirstAt(s, i);
    var rest := s[i + 1..];
    assert rest == s[i + 1..j] + ['.'] + s[j + 1..];
    AllConcat(s[i + 1..j], ['.'], IsPlainChar);
    AllConcat(s[i + 1..j] + ['.'], s[j + 1..], IsPlainChar);
    assert rest[1..|rest| - 1][j - i - 2] == '.';
  }

  /** The first occurrence of a character is at `i` when it is there and nowhere before. */
  lemma FirstAt(s: string, i: nat)
    requires i < |s| && s[i] == '@' && '@' !in s[..i]
    ensures IndexOf(s, '@') == Some(i)
  {
    var v := IndexOf(s, '@');
    assert s[..i + 1][i] == '@';
  }

  /** A slice of a string whose characters all satisfy `p` satisfies `p` too. */
  lemma AllSlice(s: string, lo: nat, hi: nat, p: char -> bool)
    requires lo <= hi <= |s| && All(s, p)
    ensures All(s[lo..hi], p)
  {
    assert forall k :: 0 <= k < hi - lo ==> s[lo..hi][k] == s[lo + k];
  }

  // ---------------------------------------------------------------------------------------
  // isValidPhone

  /** `s.replace(/\s/g, '')`. */
  function RemoveWhitespace(s: string): (r: string)
    ensures |r| <= |s|
    ensures forall k :: 0 <= k < |r| ==> !IsWhitespace(r[k])
    ensures (forall k :: 0 <= k < |s| ==> !IsWhitespace(s[k])) ==> r == s
  {
    if s == [] then []
    else if IsWhitespace(s[0]) then RemoveWhitespace(s[1..])
    else [s[0]] + RemoveWhitespace(s[1..])
  }

  /** `isValidPhone`: the phone regex applied after every white-space character is removed. */
  function IsValidPhone(s: string): (r: bool)
    ensures r <==> PhoneRegexMatches(RemoveWhitespace(s))
  {
    PhonePatternIsRegex(RemoveWhitespace(s));
    IsPhonePattern(RemoveWhitespace(s))
  }

  /** After the removal, what the phone regex accepts is an optional `+` and then ten or more
      characters that are digits, `-`, `(` or `)`. */
  lemma PhoneAfterRemoval(s: string)
    ensures IsValidPhone(s) <==>
      var t := AfterPlus(RemoveWhitespace(s));
      |t| >= 10 && forall k :: 0 <= k < |t| ==> IsDigit(t[k]) || t[k] in "-()"
  {
  }

  /** For a phone number without white space, the browser and the server check agree. */
  lemma PhoneChecksAgree(s: string)
    requires forall k :: 0 <= k < |s| ==> !IsWhitespace(s[k])
    ensures IsValidPhone(s) <==> IsPhonePattern(s)
  {
  }

  /** The server counts a space toward the ten characters. */
  lemma ServerCountsSpace()
    ensures IsPhonePattern(" 123456789")
  {
    var s := " 123456789";
    assert AfterPlus(s) == s;
    assert forall k :: 0 <= k < |s| ==> IsPhoneChar(s[k]);
  }

  /** The browser drops the space first and is left with nine digits. */
  lemma BrowserDropsSpace()
    ensures !IsValidPhone(" 123456789")
  {
    var t := "123456789";
    assert " 123456789" == [' '] + t;
    DropLeadingSpace(t);
  }

  /** The server refuses a space before the `+`. */
  lemma ServerRefusesSpaceBeforePlus()
    ensures !IsPhonePattern(" +1234567890")
  {
    var s := " +1234567890";
    assert !IsPhoneChar('+');
    assert s[1] == '+' && AfterPlus(s) == s;
  }

  /** The browser drops the space before the `+`. */
  lemma BrowserDropsSpaceBeforePlus()
    ensures IsValidPhone(" +1234567890")
  {
    var t := "+1234567890";
    assert " +1234567890" == [' '] + t;
    PlusDigitsArePhone(t);
    DropLeadingSpace(t);
  }

  /** `+` and ten digits is a phone pattern. */
  lemma PlusDigitsArePhone(t: string)
    requires t == "+1234567890"
    ensures IsPhonePattern(t)
  {
    var u := t[1..];
    assert AfterPlus(t) == u;
    assert forall k :: 0 <= k < |u| ==> IsDigit(u[k]);
    assert All(u, IsPhoneChar);
  }

  /** A space followed by digits and `+` leaves just those. */
  lemma DropLeadingSpace(t: string)
    requires forall k :: 0 <= k < |t| ==> IsDigit(t[k]) || t[k] == '+'
    ensures RemoveWhitespace([' '] + t) == t
  {
    assert ([' '] + t)[1..] == t;
  }

  // ---------------------------------------------------------------------------------------
  // validateField and validateForm

  /** The `type` of a form control, as far as the checks distinguish it. */
  datatype Kind = Email | Tel | Other

  /** A form control: its current value, whether it has the `required` attribute, its type. */
  datatype Field = Field(value: string, required: bool, kind: Kind)

  /** The outcome of a check: valid, or the message shown beside the field. */
  datatype Verdict = Valid | Invalid(message: string)

  const RequiredMsg := "This field is required"
  const EmailMsg := "Please enter a valid email address"
  const PhoneMsg := "Please enter a valid phone number"

  /** `validateField`: on the trimmed value, a required field must not be empty, a non-empty
      e-mail field must be an address and a non-empty phone field a phone number; the first
      failing check gives the message. */
  function ValidateField(f: Field): (r: Verdict)
    ensures r.Valid? <==>
      var v := Trim(f.value);
      && (f.required ==> v != "")
      && (f.kind == Email && v != "" ==> IsValidEmail(v))
      && (f.kind == Tel && v != "" ==> IsValidPhone(v))
    ensures r.Invalid? ==> r.message in {RequiredMsg, EmailMsg, PhoneMsg}
    ensures r == Invalid(RequiredMsg) <==> f.required && Trim(f.value) == ""
  {
    var v := Trim(f.value);
    if f.required && v == "" then Invalid(RequiredMsg)
    else if f.kind == Email && v != "" && !IsValidEmail(v) then Invalid(EmailMsg)
    else if f.kind == Tel && v != "" && !IsValidPhone(v) then Invalid(PhoneMsg)
    else Valid
  }

  /** A field that is not required and holds only white space always passes. */
  lemma EmptyOptionalFieldIsValid(f: Field)
    requires !f.required && Trim(f.value) == ""
    ensures ValidateField(f) == Valid
  {
  }

  /** The final e-mail re-check of `validateForm`, on the value as typed (not trimmed). */
  predicate EmailRecheckPasses(email: Option<string>) {
    email.None? || email.value == "" || IsValidEmail(email.value)
  }

  /** The final phone re-check of `validateForm`, on the value as typed (not trimmed). */
  predicate PhoneRecheckPasses(phone: Option<string>) {
    phone.None? || phone.value == "" || IsValidPhone(phone.value)
  }

  /** What `validateForm` answers: every required field passes `validateField`, and the values
      of the `#email` and `#phone` controls (`None` when the form has none) pass the
      re-checks. */
  predicate FormIsValid(required: seq<Field>, email: Option<string>, phone: Option<string>): (b: bool)
    ensures b ==> forall k :: 0 <= k < |required| && required[k].required ==> Trim(required[k].value) != ""
    ensures email.Some? && email.value != "" && IsWhitespace(email.value[0]) ==> !b
  {
    && (forall k :: 0 <= k < |required| ==> ValidateField(required[k]).Valid?)
    && EmailRecheckPasses(email)
    && PhoneRecheckPasses(phone)
  }

  /** `validateForm`: every field of `required` (the controls matching `[required]`, in
      document order) is checked, with no early exit, so each failing one shows its message;
      then the e-mail and phone controls are checked on their untrimmed values. */
  method ValidateForm(required: seq<Field>, email: Option<string>, phone: Option<string>)
    returns (isValid: bool, shown: seq<Verdict>)
    ensures isValid == FormIsValid(required, email, phone)
    ensures |shown| == |required| + 2
    ensures forall k :: 0 <= k < |required| ==> shown[k] == ValidateField(required[k])
    ensures shown[|required|] == (if EmailRecheckPasses(email) then Valid else Invalid(EmailMsg))
    ensures shown[|required| + 1] == (if PhoneRecheckPasses(phone) then Valid else Invalid(PhoneMsg))
  {
    isValid := true;
    shown := [];
    var n := 0;
    while n < |required|
      invariant 0 <= n <= |required|
      invariant |shown| == n
      invariant forall k :: 0 <= k < n ==> shown[k] == ValidateField(required[k])
      invariant isValid <==> forall k :: 0 <= k < n ==> ValidateField(required[k]).Valid?
    {
      var v := ValidateField(required[n]);
      if !v.Valid? {
        isValid := false;
      }
      shown := shown + [v];
      n := n + 1;
    }
    var emailVerdict := Valid;
    if email.Some? && email.value != "" && !IsValidEmail(email.value) {
      emailVerdict := Invalid(EmailMsg);
      isValid := false;
    }
    var phoneVerdict := Valid;
    if phone.Some? && phone.value != "" && !IsValidPhone(phone.value) {
      phoneVerdict := Invalid(PhoneMsg);
      isValid := false;
    }
    shown := shown + [emailVerdict, phoneVerdict];
  }

  /** An address typed with a space around it passes `validateField` (which trims) but still
      makes the form invalid, because the re-check looks at the untrimmed value. */
  lemma UntrimmedEmailFailsForm(required: seq<Field>, email: string, phone: Option<string>)
    requires email != "" && IsWhitespace(email[0])
    ensures !FormIsValid(required, Some(email), phone)
  {
  }

  /** The form is sent to the backend only when `validateForm` answers true. */
  method OnSubmit(required: seq<Field>, email: Option<string>, phone: Option<string>)
    returns (send: bool)
    ensures send <==> FormIsValid(required, email, phone)
  {
    var ok, _ := ValidateForm(required, email, phone);
    send := ok;
  }

  // ---------------------------------------------------------------------------------------
  // submitFormToBackend

  /** The page's host is the local development machine. */
  predicate IsLocalHost(hostname: string) {
    hostname == "localhost" || hostname == "127.0.0.1"
  }

  /** The endpoint the form is posted to. */
  function ApiUrl(hostname: string): (url: string)
    ensures EndsWith(url, "/api/contact")
    ensures IsLocalHost(hostname) <==> url == "http://localhost:3000/api/contact"
    ensures !IsLocalHost(hostname) <==> url == "/api/contact"
  {
    var local := "http://localhost:3000/api/contact";
    assert local[|local| - 12..] == "/api/contact";
    if IsLocalHost(hostname) then local else "/api/contact"
  }

  /** What the backend call came to: a parsed reply, or an exception from `fetch` or from
      reading the body as JSON. */
  datatype BackendResult = Reply(ok: bool, success: bool, message: Option<string>) | Unreachable

  datatype NoticeKind = SuccessNotice | ErrorNotice

  /** The notice shown, whether the form was reset and whether the Netlify post was tried. */
  datatype Notice = Notice(kind: NoticeKind, text: string, reset: bool, netlifyTried: bool)

  const ThanksText := "Thank you for your quote request! We will contact you within 24 hours."
  const ErrorText := "There was an error submitting your request. Please try again."
  const NetlifyErrorText :=
    "There was an error submitting your request. Please try again or call us directly at (718) 712-2700."
  const OfflineText := "Unable to connect to server. Please try again or call us directly at (718) 712-2700."

  /** The notice after a submission; `netlifyOk` is whether the Netlify post succeeded, asked
      only when it is tried. */
  function SubmitNotice(hostname: string, result: BackendResult, netlifyOk: bool): (n: Notice)
    ensures n.netlifyTried <==> result.Unreachable? && !IsLocalHost(hostname)
    ensures n.reset <==> n.kind == SuccessNotice
    ensures n.kind == SuccessNotice <==>
      (result.Reply? && result.ok && result.success) || (n.netlifyTried && netlifyOk)
    ensures result.Reply? && result.ok && result.success ==> n.text == OrElse(result.message, ThanksText)
    ensures result.Reply? && !(result.ok && result.success) ==> n.text == OrElse(result.message, ErrorText)
    ensures result.Unreachable? && IsLocalHost(hostname) ==> n.text == OfflineText
  {
    match result
    case Reply(ok, success, message) =>
      if ok && success then Notice(SuccessNotice, OrElse(message, ThanksText), true, false)
      else Notice(ErrorNotice, OrElse(message, ErrorText), false, false)
    case Unreachable =>
      if !IsLocalHost(hostname) then
        if netlifyOk then Notice(SuccessNotice, ThanksText, true, true)
        else Notice(ErrorNotice, NetlifyErrorText, false, true)
      else Notice(ErrorNotice, OfflineText, false, false)
  }
}
