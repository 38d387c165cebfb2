/** The mail side of the contact form (`EmailService`): whether an SMTP transporter exists, the
    options of the operator notification and of the customer auto-reply, the error policy of the
    two send operations and the template bodies. The SMTP transport is an oracle: each send is told
    whether `sendMail` resolves. */
module EmailService {
  import opened Wrappers
  import opened Strings
  import opened Numerals
  import opened Environment

  /** The transporter settings (`secure: false` and `rejectUnauthorized: false` are fixed). */
  datatype Transport = Transport(host: string, port: int, user: string, pass: string)

  /** The port the transporter is created with: `parseInt(SMTP_PORT) || 587`; NaN and 0 fall
      back to 587. */
  function SmtpPort(env: Env): (port: int)
    ensures port != 0
  {
    match ParseInt(env.smtpPort)
    case Some(p) => if p != 0 then p else 587
    case None => 587
  }

  lemma SmtpPortDefault(env: Env)
    requires env.smtpPort.None? || env.smtpPort == Some("") || env.smtpPort == Some("0")
    ensures SmtpPort(env) == 587
  {
    if env.smtpPort == Some("0") {
      assert ToRadix(0, 10) + "" == "0";
      ParseIntOfDecimal(0, "");
    } else if env.smtpPort == Some("") {
      ParseIntOfEmpty();
    }
  }

  lemma SmtpPortOfNumeral(env: Env, n: nat)
    requires n > 0 && env.smtpPort == Some(ToRadix(n, 10))
    ensures SmtpPort(env) == n
  {
    assert ToRadix(n, 10) + "" == ToRadix(n, 10);
    ParseIntOfDecimal(n, "");
  }

  /** `initializeTransporter`: a transporter exists iff host, user and password are all set. */
  function TransporterFor(env: Env): (t: Option<Transport>)
    ensures t.Some? <==> Truthy(env.smtpHost) && Truthy(env.smtpUser) && Truthy(env.smtpPass)
    ensures t.Some? ==> t.value == Transport(env.smtpHost.value, SmtpPort(env), env.smtpUser.value, env.smtpPass.value)
  {
    if !Truthy(env.smtpHost) || !Truthy(env.smtpUser) || !Truthy(env.smtpPass) then None
    else Some(Transport(env.smtpHost.value, SmtpPort(env), env.smtpUser.value, env.smtpPass.value))
  }

  /** What loading the module leaves behind: the service with its transporter, or an error. */
  datatype Init = Initialized(transporter: Option<Transport>) | InitThrew

  /** `initializeTransporter` as written: it calls `nodemailer.createTransporter`, which nodemailer
      does not export (its factory is `createTransport`), so once host, user and password are all
      set the call throws a TypeError and `new EmailService()` never completes. */
  function InitializeAsWritten(env: Env): (r: Init)
    ensures r.InitThrew? <==> Truthy(env.smtpHost) && Truthy(env.smtpUser) && Truthy(env.smtpPass)
    ensures r.Initialized? ==> r.transporter.None?
  {
    if !Truthy(env.smtpHost) || !Truthy(env.smtpUser) || !Truthy(env.smtpPass) then Initialized(None)
    else InitThrew
  }

  /** As written, the service never has a transporter: exactly the configurations that were meant
      to get one throw instead, and the others agree with the intended version. */
  lemma InitializeAsWrittenDiverges(env: Env)
    ensures InitializeAsWritten(env).InitThrew? <==> TransporterFor(env).Some?
    ensures InitializeAsWritten(env).Initialized? ==> InitializeAsWritten(env).transporter == TransporterFor(env)
  {
  }

  /** A fully configured environment: the intended service sends mail, the written one throws. */
  lemma InitializeAsWrittenCounterexample()
    ensures var env := Env(None, Some("smtp.example.com"), None, Some("user"), Some("secret"), None, None, None, None);
      InitializeAsWritten(env) == InitThrew && TransporterFor(env) == Some(Transport("smtp.example.com", 587, "user", "secret"))
  {
    var env := Env(None, Some("smtp.example.com"), None, Some("user"), Some("secret"), None, None, None, None);
    SmtpPortDefault(env);
  }

  /** The data the controller hands over for the operator e-mail. */
  datatype EmailData = EmailData(
    name: Option<string>,
    email: string,
    phone: string,
    company: string,
    service: string,
    message: Option<string>,
    submittedAt: string,
    userAgent: Option<string>,
    ip: Option<string>
  )

  /** What the `text` and `html` options of a mail are rendered from. */
  datatype Body = ContactForm(data: EmailData, localeDate: string) | AutoReply(customerName: Option<string>)

  /** One set of `mailOptions`; `replyTo` is only set on the operator e-mail. */
  datatype Mail = Mail(from: string, to: string, subject: string, body: Body, replyTo: Option<string>) {
    /** The `text` option. */
    function Text(): string {
      match body
      case ContactForm(d, localeDate) => ContactFormText(d, localeDate)
      case AutoReply(name) => AutoReplyText(name)
    }

    /** The `html` option (a contact-form mail is only built when its HTML renders). */
    function Html(): string {
      match body
      case ContactForm(d, localeDate) => ContactFormHtml(d, localeDate).GetOr("")
      case AutoReply(name) => AutoReplyHtml(name)
    }
  }

  const DefaultRecipient := "info@paitrucking.com"
  const AutoReplySubject := "Thank you for your inquiry - P.A.I. Trucking Corporation"

  // ---------------------------------------------------------------------------------------
  // Templates

  /** `s.replace(/\n/g, '<br>')`. */
  function ReplaceNewlines(s: string): (r: string)
    ensures '\n' !in r
    ensures |r| >= |s|
  {
    if s == [] then []
    else (if s[0] == '\n' then "<br>" else [s[0]]) + ReplaceNewlines(s[1..])
  }

  /** The reverse rewrite, `<br>` back to a newline. */
  function RestoreNewlines(t: string): string {
    if t == [] then []
    else if |t| >= 4 && t[..4] == "<br>" then "\n" + RestoreNewlines(t[4..])
    else [t[0]] + RestoreNewlines(t[1..])
  }

  /** For a message without markup, the HTML rendering loses nothing: undoing the `<br>`
      rewrite gives the message back. */
  lemma {:induction false} RestoreReplaceNewlines(s: string)
    requires '<' !in s
    ensures RestoreNewlines(ReplaceNewlines(s)) == s
  {
    if s != [] {
      var t := ReplaceNewlines(s);
      assert '<' !in s[1..];
      RestoreReplaceNewlines(s[1..]);
      if s[0] == '\n' {
        assert t[..4] == "<br>" && t[4..] == ReplaceNewlines(s[1..]);
      } else {
        assert t[0] == s[0] && t[1..] == ReplaceNewlines(s[1..]);
      }
    }
  }

  /** `generateContactFormText`: the fields one per line, then the message unchanged, then the
      submission details; an absent value prints as "undefined". The locale rendering of
      `submittedAt` is the parameter `localeDate`. */
  function ContactFormText(d: EmailData, localeDate: string): (r: string)
    ensures StartsWith(r, TextHeading + "Name: " + Interpolated(d.name) + "\n")
    ensures EndsWith(r, "User Agent: " + Interpolated(d.userAgent) + "\n        ")
    ensures |r| > |Interpolated(d.message)|
  {
    var head := TextHeading + "Name: " + Interpolated(d.name) + "\n";
    var tail := "User Agent: " + Interpolated(d.userAgent) + "\n        ";
    ConcatEdges(head, TextFields(d)[|head|..] + MessageSection(Interpolated(d.message)) + TextDetails(d, localeDate));
    ConcatEdges(TextFields(d) + MessageSection(Interpolated(d.message)) + TextDetails(d, localeDate)[..|TextDetails(d, localeDate)| - |tail|], tail);
    TextFields(d) + MessageSection(Interpolated(d.message)) + TextDetails(d, localeDate)
  }

  function TextFields(d: EmailData): string {
    TextHeading
    + "Name: " + Interpolated(d.name) + "\n"
    + "Email: " + d.email + "\n"
    + "Phone: " + d.phone + "\n"
    + "Company: " + d.company + "\n"
    + "Service Interest: " + d.service + "\n\n"
  }

  const TextHeading := "\nNEW QUOTE REQUEST - P.A.I. TRUCKING CORPORATION\n\n"

  /** The message block of the text body. */
  function MessageSection(m: string): string {
    "Message:\n" + m + "\n\n---\n"
  }

  function TextDetails(d: EmailData, localeDate: string): string {
    "Submission Details:\n"
    + "Submitted: " + localeDate + "\n"
    + "IP Address: " + Interpolated(d.ip) + "\n"
    + "User Agent: " + Interpolated(d.userAgent) + "\n        "
  }

  /** `generateContactFormHTML`, reduced to its interpolated fields: the message has its
      newlines turned into `<br>`. `data.message.replace` throws on an absent message, which is
      `None` here. */
  function ContactFormHtml(d: EmailData, localeDate: string): (r: Option<string>)
    ensures r.Some? <==> d.message.Some?
    ensures r.Some? ==> StartsWith(r.value, HtmlHeading) && EndsWith(r.value, "<p>User Agent: " + Interpolated(d.userAgent) + "</p>")
    ensures r.Some? ==> |r.value| >= |d.message.value|
  {
    match d.message
    case None => None
    case Some(m) =>
      var tail := "<p>User Agent: " + Interpolated(d.userAgent) + "</p>";
      var body := HtmlFields(d) + ReplaceNewlines(m) + HtmlDetails(d, localeDate);
      assert body == HtmlHeading + (body[|HtmlHeading|..]);
      assert body == body[..|body| - |tail|] + tail;
      ConcatEdges(HtmlHeading, body[|HtmlHeading|..]);
      ConcatEdges(body[..|body| - |tail|], tail);
      Some(HtmlFields(d) + ReplaceNewlines(m) + HtmlDetails(d, localeDate))
  }

  /** One labelled field of the HTML body. */
  function HtmlRow(caption: string, value: string): string {
    LabelOpen + caption + LabelClose + value + "</span>"
  }

  const HtmlHeading := "<h2>New Quote Request - P.A.I. Trucking Corporation</h2>"
  const LabelOpen := "<span class=\"label\">"
  const LabelClose := "</span><span class=\"value\">"

  function HtmlFields(d: EmailData): string {
    HtmlHeading
    + HtmlRow("Name:", Interpolated(d.name))
    + HtmlRow("Email:", d.email)
    + HtmlRow("Phone:", d.phone)
    + HtmlRow("Company:", d.company)
    + HtmlRow("Service Interest:", d.service)
    + LabelOpen + "Message:</span><div>"
  }

  function HtmlDetails(d: EmailData, localeDate: string): string {
    "</div>"
    + "<p>Submitted: " + localeDate + "</p>"
    + "<p>IP Address: " + Interpolated(d.ip) + "</p>"
    + "<p>User Agent: " + Interpolated(d.userAgent) + "</p>"
  }

  /** The text body carries the message verbatim, between "Message:" and the "---" rule. */
  lemma TextCarriesMessage(d: EmailData, localeDate: string)
    requires d.message.Some?
    ensures exists pre, post :: ContactFormText(d, localeDate) == pre + ("Message:\n" + d.message.value + "\n\n---\n") + post
  {
    var pre, post := TextFields(d), TextDetails(d, localeDate);
    assert ContactFormText(d, localeDate) == pre + MessageSection(d.message.value) + post;
  }

  /** The HTML body exists iff there is a message, and then carries it with every newline
      replaced by `<br>`, so it holds no newline of the message. */
  lemma HtmlCarriesMessage(d: EmailData, localeDate: string)
    ensures ContactFormHtml(d, localeDate).Some? <==> d.message.Some?
    ensures d.message.Some? ==>
      exists pre, post :: ContactFormHtml(d, localeDate) == Some(pre + ReplaceNewlines(d.message.value) + post)
  {
    if d.message.Some? {
      var pre, post := HtmlFields(d), HtmlDetails(d, localeDate);
      assert ContactFormHtml(d, localeDate) == Some(pre + ReplaceNewlines(d.message.value) + post);
    }
  }

  /** `generateAutoReplyText`. */
  function AutoReplyText(customerName: Option<string>): (r: string)
    ensures StartsWith(r, "\nDear " + Interpolated(customerName) + ",")
    ensures EndsWith(r, AutoReplyTextBody)
  {
    ConcatEdges("\nDear " + Interpolated(customerName) + ",", "\n\n" + AutoReplyTextBody);
    ConcatEdges("\nDear " + Interpolated(customerName) + ",\n\n", AutoReplyTextBody);
    "\nDear " + Interpolated(customerName) + ",\n\n" + AutoReplyTextBody
  }

  const AutoReplyTextBody :=
    "Thank you for your interest in P.A.I. Trucking Corporation's logistics services. "
    + "We have received your quote request and appreciate the opportunity to serve your "
    + "transportation needs.\n\n"
    + "Our team will review your requirements and contact you within 24 hours "
    + "with a detailed quote and next steps.\n\n"
    + "In the meantime, here's what sets us apart:\n"
    + "\U{2022} 40+ Years Experience - Family-owned and operated since 1981\n"
    + "\U{2022} Strategic Location - Just 5 minutes from JFK International Airport  \n"
    + "\U{2022} Bonded Facility - 28,500 sq ft secure container station\n"
    + "\U{2022} Comprehensive Services - Air, ocean, and ground transportation\n\n"
    + "If you have any urgent questions, please don't hesitate to call us "
    + "at (718) 712-2700.\n\n"
    + "Best regards,\nP.A.I. Trucking Corporation Team\n\n"
    + "---\nP.A.I. TRUCKING CORPORATION\n"
    + "Phone: (718) 712-2700 | Website: paitrucking.com\n"
    + "Experience, Security, Honor and Integrity\n        "

  /** `generateAutoReplyHTML`, reduced to the greeting and the phone line. */
  function AutoReplyHtml(customerName: Option<string>): (r: string)
    ensures StartsWith(r, AutoReplyHtmlHeading + "<p>Dear " + Interpolated(customerName) + ",</p>")
    ensures EndsWith(r, AutoReplyHtmlBody)
  {
    ConcatEdges(AutoReplyHtmlHeading + "<p>Dear " + Interpolated(customerName) + ",</p>", AutoReplyHtmlBody);
    AutoReplyHtmlHeading + "<p>Dear " + Interpolated(customerName) + ",</p>" + AutoReplyHtmlBody
  }

  const AutoReplyHtmlHeading := "<h2>P.A.I. TRUCKING CORPORATION</h2>"

  const AutoReplyHtmlBody :=
    "<p>If you have any urgent questions, please don't hesitate to call us "
    + "at <strong>(718) 712-2700</strong>.</p>"

  // ---------------------------------------------------------------------------------------
  // Mail options

  /** The operator notification; `None` when rendering the HTML body throws, which is when
      the message is absent. */
  function ContactFormMail(env: Env, d: EmailData, localeDate: string): (m: Option<Mail>)
    ensures m.Some? <==> d.message.Some?
    ensures m.Some? ==> m.value.to == OrElse(env.emailTo, DefaultRecipient)
    ensures m.Some? ==> m.value.subject == "New Quote Request from " + Interpolated(d.name) + " - " + d.service
    ensures m.Some? ==> m.value.replyTo == Some(d.email)
    ensures m.Some? ==> m.value.from == "\"P.A.I. Trucking Website\" <" + Interpolated(env.smtpUser) + ">"
    ensures m.Some? ==> m.value.body == ContactForm(d, localeDate)
  {
    if d.message.None? then None
    else
      Some(Mail(
        from := "\"P.A.I. Trucking Website\" <" + Interpolated(env.smtpUser) + ">",
        to := OrElse(env.emailTo, DefaultRecipient),
        subject := "New Quote Request from " + Interpolated(d.name) + " - " + d.service,
        body := ContactForm(d, localeDate),
        replyTo := Some(d.email)))
  }

  /** The operator mail exists exactly when its HTML renders, and that rendering is its
      `html` part. */
  lemma ContactFormMailHtml(env: Env, d: EmailData, localeDate: string)
    ensures var m := ContactFormMail(env, d, localeDate);
      && (m.Some? <==> ContactFormHtml(d, localeDate).Some?)
      && (m.Some? ==> Some(m.value.Html()) == ContactFormHtml(d, localeDate))
  {
    var m := ContactFormMail(env, d, localeDate);
    if m.Some? {
      assert m.value.body == ContactForm(d, localeDate);
    }
  }

  /** The `text` part of the operator mail is the contact-form text template. */
  lemma ContactFormMailText(env: Env, d: EmailData, localeDate: string)
    ensures var m := ContactFormMail(env, d, localeDate);
      m.Some? ==> m.value.Text() == ContactFormText(d, localeDate)
  {
    var m := ContactFormMail(env, d, localeDate);
    if m.Some? {
      assert m.value.body == ContactForm(d, localeDate);
    }
  }

  /** The auto-reply to the customer. */
  function AutoReplyMail(env: Env, customerEmail: string, customerName: Option<string>): (m: Mail)
    ensures m.to == customerEmail && m.subject == AutoReplySubject && m.replyTo.None?
    ensures m.from == "\"P.A.I. Trucking Corporation\" <" + Interpolated(env.smtpUser) + ">"
    ensures m.body == AutoReply(customerName)
  {
    Mail(
      from := "\"P.A.I. Trucking Corporation\" <" + Interpolated(env.smtpUser) + ">",
      to := customerEmail,
      subject := AutoReplySubject,
      body := AutoReply(customerName),
      replyTo := None)
  }

  /** The auto-reply greets the customer by name in both parts. */
  lemma AutoReplyMailRendering(env: Env, customerEmail: string, customerName: Option<string>)
    ensures AutoReplyMail(env, customerEmail, customerName).Text() == AutoReplyText(customerName)
    ensures AutoReplyMail(env, customerEmail, customerName).Html() == AutoReplyHtml(customerName)
  {
  }

  // ---------------------------------------------------------------------------------------
  // Sending

  /** What a send did: nothing (no transporter), handed a mail to the transport which accepted
      or rejected it, or failed before any mail was built. */
  datatype Attempt = NoTransport | Sent(mail: Mail) | Rejected(mail: Mail) | RenderFailed {
    /** The mails the transport was given. */
    function Handed(): seq<Mail> {
      match this
      case Sent(m) => [m]
      case Rejected(m) => [m]
      case _ => []
    }
  }

  /** Where an error thrown on the contact path comes from: `email.replace` on a missing e-mail,
      rendering the HTML of a missing message, a rejected `sendMail`, or a log append that throws. */
  datatype Fault = MissingEmail | MissingMessage | SendRejected | LogWriteFailed

  /** The service object, created once from the environment. */
  class Mailer {
    const env: Env
    var transporter: Option<Transport>

    constructor(env: Env)
      ensures this.env == env && transporter == TransporterFor(env)
    {
      this.env := env;
      transporter := TransporterFor(env);
    }

    /** `sendContactFormEmail`; `accepted` is whether `sendMail` resolves, and `warnFails`,
        `infoFails` and `errorFails` whether the append of the not-configured warning, of the
        sent record and of the failure record throws. Returns what the call throws, if anything. */
    method SendContactFormEmail(d: EmailData, localeDate: string, accepted: bool,
                                warnFails: bool, infoFails: bool, errorFails: bool)
      returns (attempt: Attempt, thrown: Option<Fault>)
      ensures transporter.None? ==> attempt == NoTransport && thrown == (if warnFails then Some(LogWriteFailed) else None)
      ensures transporter.Some? && d.message.None? ==> attempt == RenderFailed && thrown == Some(MissingMessage)
      ensures transporter.Some? && d.message.Some? ==>
        var m := ContactFormMail(env, d, localeDate).value;
        && attempt == (if accepted then Sent(m) else Rejected(m))
        && (thrown.None? <==> accepted && !infoFails)
        && (thrown.Some? ==> thrown.value == (if !accepted && !errorFails then SendRejected else LogWriteFailed))
    {
      if transporter.None? {
        thrown := if warnFails then Some(LogWriteFailed) else None;
        return NoTransport, thrown;
      }
      var mail := ContactFormMail(env, d, localeDate);
      if mail.None? {
        return RenderFailed, Some(MissingMessage);
      }
      attempt := if accepted then Sent(mail.value) else Rejected(mail.value);
      // the `try` block: the send, then the sent record
      var caught: Option<Fault> := None;
      if !accepted {
        caught := Some(SendRejected);
      } else if infoFails {
        caught := Some(LogWriteFailed);
      }
      // the `catch` block: the failure record, then the rethrow
      thrown := caught;
      if caught.Some? && errorFails {
        thrown := Some(LogWriteFailed);
      }
    }

    /** `sendAutoReply`: a rejected send, or a sent record that cannot be written, is logged and
        swallowed; the call throws only when that failure record cannot be written either. */
    method SendAutoReply(customerEmail: string, customerName: Option<string>, accepted: bool,
                         infoFails: bool, errorFails: bool)
      returns (attempt: Attempt, thrown: Option<Fault>)
      ensures transporter.None? ==> attempt == NoTransport && thrown.None?
      ensures transporter.Some? ==>
        var m := AutoReplyMail(env, customerEmail, customerName);
        && attempt == (if accepted then Sent(m) else Rejected(m))
        && (thrown.Some? <==> (!accepted || infoFails) && errorFails)
      ensures thrown.Some? ==> thrown == Some(LogWriteFailed)
    {
      if transporter.None? {
        return NoTransport, None;
      }
      var mail := AutoReplyMail(env, customerEmail, customerName);
      attempt := if accepted then Sent(mail) else Rejected(mail);
      var caught := !accepted || infoFails;
      thrown := if caught && errorFails then Some(LogWriteFailed) else None;
    }
  }
}
