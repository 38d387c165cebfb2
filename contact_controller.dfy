/** The contact controller (`submitContact`) and its helpers: the service-name table, the
    e-mail data with its defaults, the e-mail mask used in the log, the reference id and the
    400/500/200 outcome with the order in which the two e-mails go out. The clock, `Math.random`,
    the SMTP transport and which log appends throw are parameters. */
module ContactController {
  import opened Wrappers
  import opened Strings
  import opened Numerals
  import opened Environment
  import opened ContactValidation
  import opened EmailService

  // ---------------------------------------------------------------------------------------
  // Service names

  /** `serviceMap`. */
  const ServiceNames: map<string, string> := map[
    "logistics" := "Complex Logistics Solutions",
    "import-export" := "Imports & Exports",
    "air-ocean" := "Air & Ocean Freight",
    "multimodal" := "Multimodal Transportation",
    "supply-chain" := "Supply Chain Management",
    "bonded" := "Bonded Container Station"
  ]

  const GeneralInquiry := "General Inquiry"

  /** `getServiceName(code)`: the table entry, or "General Inquiry". */
  function ServiceName(code: string): (name: string)
    ensures code in ServiceNames ==> name == ServiceNames[code]
    ensures code !in ServiceNames ==> name == GeneralInquiry
  {
    if code in ServiceNames then ServiceNames[code] else GeneralInquiry
  }

  /** The table has exactly the codes the validation admits, and every code has its own name. */
  lemma ServiceTableMatchesCodes()
    ensures ServiceNames.Keys == set c | c in ServiceCodes
    ensures forall c :: c in ServiceNames ==> ServiceNames[c] != GeneralInquiry
  {
  }

  /** A known code is named; any other code is a general inquiry. */
  lemma ServiceNameKnownIff(code: string)
    ensures ServiceName(code) != GeneralInquiry <==> code in ServiceCodes
  {
    ServiceTableMatchesCodes();
  }

  // ---------------------------------------------------------------------------------------
  // E-mail data

  /** What the request carries besides its body. */
  datatype RequestMeta = RequestMeta(ip: Option<string>, userAgent: Option<string>)

  /** `emailData`: phone and company default to "Not provided", a missing service to
      "General Inquiry"; `submittedAt` is the ISO time of the submission. */
  function EmailDataOf(b: ContactBody, email: string, submittedAt: string, meta: RequestMeta): (d: EmailData)
    ensures d.name == b.name && d.email == email && d.message == b.message
    ensures d.phone == (if Truthy(b.phone) then b.phone.value else "Not provided")
    ensures d.company == (if Truthy(b.company) then b.company.value else "Not provided")
    ensures !Truthy(b.service) ==> d.service == GeneralInquiry
    ensures Truthy(b.service) ==> d.service == ServiceName(b.service.value)
    ensures d.submittedAt == submittedAt && d.ip == meta.ip && d.userAgent == meta.userAgent
  {
    EmailData(
      name := b.name,
      email := email,
      phone := OrElse(b.phone, "Not provided"),
      company := OrElse(b.company, "Not provided"),
      service := if Truthy(b.service) then ServiceName(b.service.value) else GeneralInquiry,
      message := b.message,
      submittedAt := submittedAt,
      userAgent := meta.userAgent,
      ip := meta.ip)
  }

  // ---------------------------------------------------------------------------------------
  // E-mail mask, email.replace(/(.{2})(.*)(@.*)/, '$1***$3')

  /** The characters `.` does not match. */
  predicate IsLineTerminator(c: char) {
    c == '\n' || c == '\r' || c == '\U{2028}' || c == '\U{2029}'
  }

  /** The end of the run of characters `.` matches, starting at `k`. */
  function RunEnd(s: string, k: nat): (e: nat)
    requires k <= |s|
    ensures k <= e <= |s|
    ensures forall i :: k <= i < e ==> !IsLineTerminator(s[i])
    ensures e < |s| ==> IsLineTerminator(s[e])
    decreases |s| - k
  {
    if k == |s| || IsLineTerminator(s[k]) then k else RunEnd(s, k + 1)
  }

  /** A match of the pattern starting at `i`: the `@` that begins group 3 (the last one the greedy
      `(.*)` can reach) and the end of the match. */
  datatype MaskMatch = MaskMatch(start: nat, at: nat, end: nat)

  function MatchAt(s: string, i: nat): (m: Option<MaskMatch>)
    requires i <= |s|
    ensures m.Some? ==> m.value.start == i && i + 2 <= m.value.at < m.value.end <= |s| && s[m.value.at] == '@'
  {
    if i + 2 > |s| || IsLineTerminator(s[i]) || IsLineTerminator(s[i + 1]) then None
    else
      var e := RunEnd(s, i + 2);
      match LastIndexOf(s[i + 2..e], '@')
      case None => None
      case Some(k) => Some(MaskMatch(i, i + 2 + k, e))
  }

  /** The leftmost match at or after `i`. */
  function FirstMatch(s: string, i: nat): (m: Option<MaskMatch>)
    requires i <= |s|
    ensures m.Some? ==> i <= m.value.start && m.value.start + 2 <= m.value.at < m.value.end <= |s| && s[m.value.at] == '@'
    decreases |s| - i
  {
    if MatchAt(s, i).Some? then MatchAt(s, i)
    else if i == |s| then None
    else FirstMatch(s, i + 1)
  }

  /** The masked e-mail: the two characters before the match's middle part are kept, the
      middle part becomes `***`, the `@` and what follows it are kept. */
  function MaskEmail(s: string): (r: string)
    ensures FirstMatch(s, 0).None? ==> r == s
  {
    match FirstMatch(s, 0)
    case None => s
    case Some(m) => s[..m.start + 2] + "***" + s[m.at..m.end] + s[m.end..]
  }

  /** No line terminator in `s`. */
  predicate SingleLine(s: string) {
    forall i :: 0 <= i < |s| ==> !IsLineTerminator(s[i])
  }

  /** In a single line, the run that `.` matches reaches the end. */
  lemma RunEndOfSingleLine(s: string, k: nat)
    requires k <= |s| && SingleLine(s)
    ensures RunEnd(s, k) == |s|
  {
  }

  /** The only `@` of `a + "@" + b` is the last one. */
  lemma LastAtOfSplit(a: string, b: string)
    requires '@' !in a && '@' !in b
    ensures LastIndexOf(a + "@" + b, '@') == Some(|a|)
  {
    var t := a + "@" + b;
    assert t[|a|] == '@' && t[|a| + 1..] == b && t[..|a|] == a;
  }

  /** Past the first two characters of `local@domain`, the last `@` is the one after `local`. */
  lemma LastAtAfterTwo(local: string, domain: string)
    requires |local| >= 2 && '@' !in local && '@' !in domain
    ensures LastIndexOf((local + "@" + domain)[2..], '@') == Some(|local| - 2)
  {
    var rest := local[2..];
    assert (local + "@" + domain)[2..] == rest + "@" + domain;
    NoAtInSuffix(local, 2);
    LastAtOfSplit(rest, domain);
  }

  /** The match at the start of a single line whose last `@` after the first two characters is
      at index `at`. */
  lemma MatchAtStart(s: string, at: nat)
    requires |s| >= 2 && SingleLine(s) && at >= 2
    requires LastIndexOf(s[2..], '@') == Some(at - 2)
    ensures FirstMatch(s, 0) == Some(MaskMatch(0, at, |s|))
  {
    RunEndOfSingleLine(s, 2);
    assert s[2..RunEnd(s, 2)] == s[2..];
    assert MatchAt(s, 0) == Some(MaskMatch(0, at, |s|));
  }

  lemma NoAtInSuffix(s: string, k: nat)
    requires k <= |s| && '@' !in s
    ensures '@' !in s[k..]
  {
  }

  /** For `local@domain` with at least two characters before the only `@` and no line break,
      the mask is the first two characters of `local`, `***`, then `@domain`. */
  lemma MaskSimpleAddress(local: string, domain: string)
    requires |local| >= 2 && '@' !in local && '@' !in domain
    requires SingleLine(local + "@" + domain)
    ensures MaskEmail(local + "@" + domain) == local[..2] + "***@" + domain
  {
    var s := local + "@" + domain;
    LastAtAfterTwo(local, domain);
    MaskAtStart(s, |local|);
    SimpleAddressParts(local, domain);
  }

  /** The pieces of `local@domain` the mask keeps. */
  lemma SimpleAddressParts(local: string, domain: string)
    requires |local| >= 2
    ensures var s := local + "@" + domain;
      s[..2] + "***" + s[|local|..] == local[..2] + "***@" + domain
  {
    var s := local + "@" + domain;
    assert s[..2] == local[..2];
    assert s[|local|..] == "@" + domain;
  }

  /** The mask of a single line whose first match starts at 0 and ends the line. */
  lemma MaskAtStart(s: string, at: nat)
    requires |s| >= 2 && SingleLine(s) && at >= 2
    requires LastIndexOf(s[2..], '@') == Some(at - 2)
    ensures at <= |s| && MaskEmail(s) == s[..2] + "***" + s[at..]
  {
    MatchAtStart(s, at);
    assert s[at..|s|] + s[|s|..] == s[at..];
  }

  /** Without `@` (or without two characters before one) the address is logged unchanged. */
  lemma MaskWithoutAt(s: string)
    requires '@' !in s
    ensures MaskEmail(s) == s
  {
  }

  // ---------------------------------------------------------------------------------------
  // Reference id

  /** `s.substring(a, b)`: both ends clamped to the string, then ordered. */
  function Substring(s: string, a: nat, b: nat): (r: string)
    ensures |r| <= |s|
  {
    var lo := if a < |s| then a else |s|;
    var hi := if b < |s| then b else |s|;
    if lo <= hi then s[lo..hi] else s[hi..lo]
  }

  /** `generateReferenceId()`, with `nowMs` for `Date.now()` and `randomText` for
      `Math.random().toString(36)`. */
  function ReferenceId(nowMs: nat, randomText: string): (r: string)
    ensures |r| >= 6 && r[..4] == "PAI-"
  {
    ToUpper("PAI-" + ToRadix(nowMs, 36) + "-" + Substring(randomText, 2, 8))
  }

  /** Upper-casing a numeral does not change its value. */
  lemma {:induction false} FromRadixOfUpper(s: string, radix: nat)
    requires IsNumeral(s, radix)
    ensures IsNumeral(ToUpper(s), radix)
    ensures FromRadix(ToUpper(s), radix) == FromRadix(s, radix)
    decreases |s|
  {
    var u := ToUpper(s);
    assert forall i :: 0 <= i < |s| ==> DigitValue(u[i]) == DigitValue(s[i]);
    if s != [] {
      var p := s[..|s| - 1];
      assert ToUpper(p) == u[..|s| - 1];
      FromRadixOfUpper(p, radix);
    }
  }

  /** The reference id is "PAI-", the upper-cased timestamp in base 36, "-", then the
      upper-cased random part. */
  lemma ReferenceIdParts(nowMs: nat, randomText: string)
    ensures ReferenceId(nowMs, randomText)
      == "PAI-" + ToUpper(ToRadix(nowMs, 36)) + "-" + ToUpper(Substring(randomText, 2, 8))
  {
    var t, p := ToRadix(nowMs, 36), Substring(randomText, 2, 8);
    ToUpperConcat("PAI-" + t + "-", p);
    ToUpperConcat("PAI-" + t, "-");
    ToUpperConcat("PAI-", t);
    assert ToUpper("PAI-") == "PAI-" && ToUpper("-") == "-";
  }

  /** The reference id holds no lower-case letter. */
  lemma ReferenceIdIsUpperCase(nowMs: nat, randomText: string)
    ensures var id := ReferenceId(nowMs, randomText);
      forall i :: 0 <= i < |id| ==> !('a' <= id[i] <= 'z')
  {
  }

  /** The segment after "PAI-" and before the next "-" reads back, in base 36, as the
      timestamp. */
  lemma ReferenceIdDecodes(nowMs: nat, randomText: string)
    ensures var id := ReferenceId(nowMs, randomText);
      && |id| >= 4 && id[..4] == "PAI-"
      && var mid := BeforeFirst(id[4..], '-');
         IsNumeral(mid, 36) && FromRadix(mid, 36) == nowMs
  {
    ReferenceIdParts(nowMs, randomText);
    UpperTimestamp(nowMs);
    PrefixedSegment(ToUpper(ToRadix(nowMs, 36)), ToUpper(Substring(randomText, 2, 8)));
  }

  /** The upper-cased base-36 timestamp has no "-" and still reads as the timestamp. */
  lemma UpperTimestamp(nowMs: nat)
    ensures var ut := ToUpper(ToRadix(nowMs, 36));
      '-' !in ut && IsNumeral(ut, 36) && FromRadix(ut, 36) == nowMs
  {
    var t := ToRadix(nowMs, 36);
    var ut := ToUpper(t);
    FromRadixOfUpper(t, 36);
    FromRadixToRadix(nowMs, 36);
    assert '-' !in ut by {
      forall i | 0 <= i < |ut| ensures ut[i] != '-' {
        assert IsRadixDigit(ut[i], 36);
      }
    }
  }

  /** In "PAI-" + a + "-" + b with no "-" in `a`, the segment after the prefix is `a`. */
  lemma PrefixedSegment(a: string, b: string)
    requires '-' !in a
    ensures var id := "PAI-" + a + "-" + b;
      |id| >= 4 && id[..4] == "PAI-" && BeforeFirst(id[4..], '-') == a
  {
    var id := "PAI-" + a + "-" + b;
    assert id[4..] == a + "-" + b;
    BeforeFirstOfConcat(a, '-', b);
  }

  // ---------------------------------------------------------------------------------------
  // submitContact

  const ErrorMessage := "Sorry, there was an error submitting your request. "
    + "Please try again or call us directly at (718) 712-2700."

  /** The response; `ProcessExit` is a request whose error handler itself threw (its log record
      cannot be written): the promise rejection is unhandled and the server's `unhandledRejection`
      handler ends the process, so no response is sent. */
  datatype Response =
    | ValidationFailed(errors: seq<FieldError>)
    | ServerError(fault: Fault, exposed: bool)
    | Accepted(submittedAt: string, referenceId: string)
    | ProcessExit
  {
    function Status(): int {
      match this
      case ValidationFailed(_) => 400
      case ServerError(_, _) => 500
      case Accepted(_, _) => 200
      case ProcessExit => 0
    }

    function Message(): string {
      match this
      case ValidationFailed(_) => "Validation failed"
      case ServerError(_, _) => ErrorMessage
      case Accepted(_, _) => "Thank you for your inquiry! We will contact you within 24 hours."
      case ProcessExit => ""
    }
  }

  /** The response and the mails given to the transport, in order. */
  datatype Outcome = Outcome(response: Response, handed: seq<Mail>)

  /** What the `try` block of `submitContact` throws, if anything, and the mails it handed over. */
  datatype Tried = Tried(thrown: Option<Fault>, handed: seq<Mail>)

  /** The clock and random readings of one submission. */
  datatype Stamp = Stamp(iso: string, localeDate: string, ms: nat, randomText: string)

  /** Which log appends of one submission throw: the controller's submission record and its
      handler's error record; the mailer's not-configured warning, the operator mail's sent and
      failure records, and the auto-reply's sent and failure records. */
  datatype LogFaults = LogFaults(
    submissionInfo: bool, handlerError: bool,
    operatorWarn: bool, operatorInfo: bool, operatorError: bool,
    replyInfo: bool, replyError: bool)

  /** Every log append succeeds. */
  const NoLogFaults := LogFaults(false, false, false, false, false, false, false)

  /** What `submitContact` does with the validated request `v`; `operatorAccepted` and
      `autoReplyAccepted` are the transport's answers to the two sends. */
  function Submission(v: Validated, env: Env, transporter: Option<Transport>, meta: RequestMeta, stamp: Stamp,
                      faults: LogFaults, operatorAccepted: bool, autoReplyAccepted: bool): (o: Outcome)
    ensures o.response.ValidationFailed? <==> v.errors != []
    ensures o.response.ProcessExit? ==> faults.handlerError
    ensures o.response.ServerError? ==> o.response.exposed == IsDevelopment(env)
    ensures o.response.Accepted? ==> o.response == Accepted(stamp.iso, ReferenceId(stamp.ms, stamp.randomText))
    ensures |o.handed| <= 2
    ensures o.response.Accepted? && transporter.Some? ==> |o.handed| == 2
  {
    if v.errors != [] then Outcome(ValidationFailed(v.errors), [])
    else
      var t := Attempted(v, env, transporter, meta, stamp, faults, operatorAccepted, autoReplyAccepted);
      match t.thrown
      case None => Outcome(Accepted(stamp.iso, ReferenceId(stamp.ms, stamp.randomText)), t.handed)
      case Some(f) =>
        if faults.handlerError then Outcome(ProcessExit, t.handed)
        else Outcome(ServerError(f, IsDevelopment(env)), t.handed)
  }

  /** The `try` block after validation: masking the e-mail fails on a missing one, then the
      submission record is logged, then the two sends. */
  function Attempted(v: Validated, env: Env, transporter: Option<Transport>, meta: RequestMeta, stamp: Stamp,
                     faults: LogFaults, operatorAccepted: bool, autoReplyAccepted: bool): (t: Tried)
    ensures v.body.email.None? ==> t.thrown == Some(MissingEmail)
    ensures t.handed != [] ==> v.body.email.Some? && !faults.submissionInfo && transporter.Some?
    ensures |t.handed| <= 2
  {
    if v.body.email.None? then Tried(Some(MissingEmail), [])
    else if faults.submissionInfo then Tried(Some(LogWriteFailed), [])
    else
      var d := EmailDataOf(v.body, v.body.email.value, stamp.iso, meta);
      Delivery(env, transporter, d, stamp.localeDate, faults, operatorAccepted, autoReplyAccepted)
  }

  /** The two sends: the operator mail, whose failure (or a failure to log it) is rethrown, then
      the auto-reply, whose failures are swallowed unless their own record cannot be written. */
  function Delivery(env: Env, transporter: Option<Transport>, d: EmailData, localeDate: string,
                    faults: LogFaults, operatorAccepted: bool, autoReplyAccepted: bool): (t: Tried)
    ensures |t.handed| <= 2
    ensures t.handed != [] ==> transporter.Some? && d.message.Some?
    ensures transporter.Some? && d.message.Some? ==> t.handed != [] && t.handed[0].replyTo == Some(d.email)
    ensures t.thrown == Some(SendRejected) ==> !operatorAccepted && |t.handed| == 1
    ensures transporter.Some? && !operatorAccepted ==> t.thrown.Some?
  {
    if transporter.None? then Tried(if faults.operatorWarn then Some(LogWriteFailed) else None, [])
    else
      match ContactFormMail(env, d, localeDate)
      case None => Tried(Some(MissingMessage), [])
      case Some(m) =>
        if !operatorAccepted then Tried(Some(if faults.operatorError then LogWriteFailed else SendRejected), [m])
        else if faults.operatorInfo then Tried(Some(LogWriteFailed), [m])
        else
          var reply := AutoReplyMail(env, d.email, d.name);
          var swallowed := !autoReplyAccepted || faults.replyInfo;
          Tried(if swallowed && faults.replyError then Some(LogWriteFailed) else None, [m, reply])
  }

  /** `submitContact(req, res)`. `faults` says which log appends throw; `operatorAccepted` and
      `autoReplyAccepted` are the transport's answers. */
  method SubmitContact(v: Validated, mailer: Mailer, meta: RequestMeta, stamp: Stamp,
                       faults: LogFaults, operatorAccepted: bool, autoReplyAccepted: bool)
    returns (response: Response, handed: seq<Mail>)
    ensures Outcome(response, handed)
      == Submission(v, mailer.env, mailer.transporter, meta, stamp, faults, operatorAccepted, autoReplyAccepted)
  {
    if v.errors != [] {
      return ValidationFailed(v.errors), [];
    }
    // try
    var thrown: Option<Fault>;
    handed := [];
    if v.body.email.None? {
      thrown := Some(MissingEmail);
    } else if faults.submissionInfo {
      thrown := Some(LogWriteFailed);
    } else {
      var d := EmailDataOf(v.body, v.body.email.value, stamp.iso, meta);
      thrown, handed := Deliver(mailer, d, stamp.localeDate, faults, operatorAccepted, autoReplyAccepted);
    }
    if thrown.None? {
      return Accepted(stamp.iso, ReferenceId(stamp.ms, stamp.randomText)), handed;
    }
    // catch
    if faults.handlerError {
      return ProcessExit, handed;
    }
    response := ServerError(thrown.value, IsDevelopment(mailer.env));
  }

  /** The operator e-mail, then the auto-reply; a throwing operator send skips the auto-reply. */
  method Deliver(mailer: Mailer, d: EmailData, localeDate: string,
                 faults: LogFaults, operatorAccepted: bool, autoReplyAccepted: bool)
    returns (thrown: Option<Fault>, handed: seq<Mail>)
    ensures Tried(thrown, handed)
      == Delivery(mailer.env, mailer.transporter, d, localeDate, faults, operatorAccepted, autoReplyAccepted)
  {
    var operator;
    operator, thrown := mailer.SendContactFormEmail(d, localeDate, operatorAccepted,
                                                   faults.operatorWarn, faults.operatorInfo, faults.operatorError);
    handed := operator.Handed();
    if thrown.Some? {
      return;
    }
    var reply;
    reply, thrown := mailer.SendAutoReply(d.email, d.name, autoReplyAccepted, faults.replyInfo, faults.replyError);
    handed := handed + reply.Handed();
  }

  // ---------------------------------------------------------------------------------------
  // Properties of the outcome

  /** The answer is 400 exactly when validation reported an error, and then no mail is sent. */
  lemma ValidationGate(v: Validated, env: Env, transporter: Option<Transport>, meta: RequestMeta, stamp: Stamp,
                       faults: LogFaults, operatorAccepted: bool, autoReplyAccepted: bool)
    ensures var o := Submission(v, env, transporter, meta, stamp, faults, operatorAccepted, autoReplyAccepted);
      && (o.response.Status() == 400 <==> v.errors != [])
      && (v.errors != [] ==> o.response == ValidationFailed(v.errors) && o.handed == [])
  {
  }

  /** The mails of one delivery: the operator mail first; the auto-reply only after the operator
      mail was accepted and its record written; with a transporter, nothing thrown means both
      mails went out. */
  lemma DeliveryOrder(env: Env, transporter: Option<Transport>, d: EmailData, localeDate: string,
                      faults: LogFaults, operatorAccepted: bool, autoReplyAccepted: bool)
    ensures var t := Delivery(env, transporter, d, localeDate, faults, operatorAccepted, autoReplyAccepted);
      && |t.handed| <= 2
      && (|t.handed| >= 1 ==> transporter.Some? && t.handed[0] == ContactFormMail(env, d, localeDate).value)
      && (|t.handed| == 2 <==> transporter.Some? && d.message.Some? && operatorAccepted && !faults.operatorInfo)
      && (|t.handed| == 2 ==> t.handed[1] == AutoReplyMail(env, d.email, d.name))
      && (transporter.Some? && t.thrown.None? ==> |t.handed| == 2)
  {
  }

  /** The operator mail always goes first, addressed to the operator with the customer as
      reply-to; the auto-reply to the customer follows only when the operator mail was
      accepted. */
  lemma MailOrder(v: Validated, env: Env, transporter: Option<Transport>, meta: RequestMeta, stamp: Stamp,
                  faults: LogFaults, operatorAccepted: bool, autoReplyAccepted: bool)
    ensures var o := Submission(v, env, transporter, meta, stamp, faults, operatorAccepted, autoReplyAccepted);
      && |o.handed| <= 2
      && (|o.handed| >= 1 ==>
            && v.errors == [] && v.body.email.Some? && !faults.submissionInfo
            && o.handed[0].replyTo == v.body.email && o.handed[0].to == OrElse(env.emailTo, DefaultRecipient))
      && (|o.handed| == 2 ==>
            && operatorAccepted
            && o.handed[1].subject == AutoReplySubject && o.handed[1].to == v.body.email.value)
  {
    if v.errors == [] && v.body.email.Some? && !faults.submissionInfo {
      var d := EmailDataOf(v.body, v.body.email.value, stamp.iso, meta);
      DeliveryOrder(env, transporter, d, stamp.localeDate, faults, operatorAccepted, autoReplyAccepted);
    }
  }

  /** A 500 answer carries the fixed message; the error detail is exposed only in development. */
  lemma ServerErrorShape(v: Validated, env: Env, transporter: Option<Transport>, meta: RequestMeta, stamp: Stamp,
                         faults: LogFaults, operatorAccepted: bool, autoReplyAccepted: bool)
    ensures var r := Submission(v, env, transporter, meta, stamp, faults, operatorAccepted, autoReplyAccepted).response;
      r.Status() == 500 ==>
        && r.ServerError? && (r.exposed <==> env.nodeEnv == Some("development"))
        && r.Message() == ErrorMessage
  {
  }

  /** On success the response reports the submission time placed in the e-mail data and a
      reference id built from the clock and random readings. */
  lemma SuccessShape(v: Validated, env: Env, transporter: Option<Transport>, meta: RequestMeta, stamp: Stamp,
                     faults: LogFaults, operatorAccepted: bool, autoReplyAccepted: bool)
    ensures var o := Submission(v, env, transporter, meta, stamp, faults, operatorAccepted, autoReplyAccepted);
      o.response.Status() == 200 ==>
        && v.errors == [] && !faults.submissionInfo && v.body.email.Some?
        && o.response == Accepted(stamp.iso, ReferenceId(stamp.ms, stamp.randomText))
        && EmailDataOf(v.body, v.body.email.value, stamp.iso, meta).submittedAt == o.response.submittedAt
        && (transporter.Some? ==> |o.handed| == 2)
  {
  }

  /** The request is answered iff the handler's own record can be written or nothing was thrown;
      a thrown error whose record cannot be written ends the process. */
  lemma HandlerLogGate(v: Validated, env: Env, transporter: Option<Transport>, meta: RequestMeta, stamp: Stamp,
                       faults: LogFaults, operatorAccepted: bool, autoReplyAccepted: bool)
    ensures var o := Submission(v, env, transporter, meta, stamp, faults, operatorAccepted, autoReplyAccepted);
      && (o.response.ProcessExit? ==> faults.handlerError)
      && (o.response.Status() == 500 || o.response.ProcessExit? <==>
            v.errors == [] && Attempted(v, env, transporter, meta, stamp, faults, operatorAccepted, autoReplyAccepted).thrown.Some?)
  {
  }

  /** With every log append succeeding, a rejected operator mail fails the request and an
      accepted one succeeds whatever the auto-reply's fate. */
  lemma RejectedOperatorMailFails(v: Validated, env: Env, t: Transport, meta: RequestMeta, stamp: Stamp, autoReplyAccepted: bool)
    requires v.errors == [] && v.body.email.Some? && v.body.message.Some?
    ensures Submission(v, env, Some(t), meta, stamp, NoLogFaults, false, autoReplyAccepted).response
      == ServerError(SendRejected, IsDevelopment(env))
    ensures Submission(v, env, Some(t), meta, stamp, NoLogFaults, true, autoReplyAccepted).response.Accepted?
  {
  }

  /** A submission record that cannot be written fails the request before any mail is sent, even
      though the handler's own record is written. */
  lemma SubmissionLogFails(v: Validated, env: Env, transporter: Option<Transport>, meta: RequestMeta, stamp: Stamp,
                           faults: LogFaults, operatorAccepted: bool, autoReplyAccepted: bool)
    requires v.errors == [] && v.body.email.Some? && faults.submissionInfo && !faults.handlerError
    ensures Submission(v, env, transporter, meta, stamp, faults, operatorAccepted, autoReplyAccepted)
      == Outcome(ServerError(LogWriteFailed, IsDevelopment(env)), [])
  {
  }

  /** An operator mail that went out but whose sent record cannot be written still fails the
      request, and the auto-reply is not sent. */
  lemma SentRecordFailureFails(v: Validated, env: Env, t: Transport, meta: RequestMeta, stamp: Stamp,
                               faults: LogFaults, autoReplyAccepted: bool)
    requires v.errors == [] && v.body.email.Some? && v.body.message.Some?
    requires !faults.submissionInfo && !faults.handlerError && faults.operatorInfo
    ensures var o := Submission(v, env, Some(t), meta, stamp, faults, true, autoReplyAccepted);
      && o.response == ServerError(LogWriteFailed, IsDevelopment(env))
      && |o.handed| == 1 && o.handed[0].replyTo == v.body.email
  {
  }

  /** A rejected auto-reply does not matter as long as its failure record can be written; if it
      cannot, the request fails after both mails went out. */
  lemma AutoReplyFailureSwallowed(v: Validated, env: Env, t: Transport, meta: RequestMeta, stamp: Stamp, faults: LogFaults)
    requires v.errors == [] && v.body.email.Some? && v.body.message.Some?
    requires !faults.submissionInfo && !faults.handlerError && !faults.operatorInfo && !faults.replyInfo
    ensures var o := Submission(v, env, Some(t), meta, stamp, faults, true, false);
      && |o.handed| == 2
      && (o.response.Accepted? <==> !faults.replyError)
      && (faults.replyError ==> o.response == ServerError(LogWriteFailed, IsDevelopment(env)))
  {
  }
}
