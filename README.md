# P.A.I. Trucking landing page — a Dafny model

This project models the logic behind the P.A.I. Trucking Corporation website: the Express
server that receives the quote request form, and the browser scripts that run on the page.
Every module is one source file of the site:

- `Csrf`: the CSRF token store and its two request handlers.
  - Tokens are single use.
  - Each token is bound to the session that asked for it.
  - A token expires an hour after it is issued.
- `ContactValidation` and `Patterns`: the contact route's validation chain.
  - It runs field by field and reports every failing check.
  - It also sanitises the body.
  - `Patterns` holds the shared phone regular expression.
- `ContactController`: `submitContact`.
  - It covers the 400, 500 and 200 answers, and the process exit when its own error record cannot be written.
  - It builds the e-mail data and its defaults.
  - It masks the address in the log and builds the reference id.
  - It fixes the order in which the two mails are handed to the transport.
- `EmailService`: the SMTP transporter settings and the two mails.
  - The two mails are the operator notification and the auto-reply.
  - The model keeps their addressing and the interpolated fields of their bodies.
- `Logger`: a log record, its `JSON.stringify` form, the daily log file and the four levels.
- `Security`: the session cookie, the CORS decision, the rate-limit policies, the input limits and the monitoring level.
- `Https`: the certificate check, the TLS options, the HTTP to HTTPS redirect and the Let's Encrypt challenge responder.
- `ClientForm`: the browser-side checks.
  - It covers the e-mail and phone tests, `validateField` and `validateForm`.
  - It also covers the submit gate, the endpoint choice and the notice shown after a submission.
- `Analytics`: the `AnalyticsManager` event pipeline.
  - Events queue before initialisation and are emitted after it.
  - Scroll-depth thresholds fire once each.
  - It builds the business-event, conversion and button-click parameters.
- `ImageLoader`: the lazy image loader.
  - It keeps the loading, loaded and observed sets, and the `loaded`/`error` classes.
  - It chooses the background URL.
- `Cdn`: CDN URLs, the WebP `srcset` and the attribute values of the `<picture>` element.
- `OptimizeImages`: the build script that resizes and re-encodes the images.
  - It filters the image files.
  - It plans the outputs per size and per format.
  - It stops at the first failing write.
- `Strings`, `Numerals`, `Environment`, `Wrappers`: shared support.
  - `Strings` and `Numerals` give the JavaScript string built-ins the source uses.
    - `trim`, `split`/`join`, `toUpperCase`, `lastIndexOf`.
    - `toString(radix)` and `parseInt`.
  - `Environment` is `process.env`.
  - `Wrappers` is the `Option` type; `None` is JavaScript's `undefined`.

Objects whose fields the source updates become classes. These are the token store, the mailer, the logger, the analytics manager and the image loader. Each of their methods is specified against a function of the old state. Pure helpers become functions. Inputs the program gets from the outside world become parameters:

- the clock and every random value;
- file existence and file contents;
- whether SMTP accepts a mail;
- whether the log file can be appended to;
- image metadata, and whether an image write succeeds.

The modules follow the source code wherever it and the documentation of the site disagree. There are two such places:

- A CSRF token presented under the wrong session is not deleted. It stays valid for its own session (`Csrf.MismatchKeepsToken`).
- The phone pattern `^[\+]?[1-9]?[\d\s\-\(\)]{10,}$` counts hyphens, parentheses and white space toward its ten characters. So ten hyphens are a valid phone number (`ContactValidation.PhoneOfHyphensPasses`).

## Model

| member | source | states |
|---|---|---|
| Csrf.CsrfProtection.constructor | server/middleware/csrf.js:5-8 | a new store holds no token |
| Csrf.Sweep | server/middleware/csrf.js:46-53 | the swept store keeps exactly the entries whose expiry is not before the sweep time, with their data unchanged |
| Csrf.Issue | server/middleware/csrf.js:10-23 | the new token is bound to its session with expiry issue + 3600000 ms unless the sweep that follows removes it; every other kept entry is an old one, unchanged; every entry left is unexpired at the sweep |
| Csrf.Validate | server/middleware/csrf.js:25-44 | true iff the token is known, not past its expiry and bound to the same session; the store loses at most that token, and keeps it exactly when it is known, unexpired and the check failed |
| Csrf.CsrfDecision | server/middleware/csrf.js:67-95 | a request passes iff it is a GET, the health check, or carries a token that validates; the store is unchanged or loses just the submitted token; a refusal says "CSRF token missing" or "Invalid CSRF token" |
| Csrf.CsrfProtection.GenerateToken | server/middleware/csrf.js:10-23 | returns the random text as the token and leaves the store as `Issue` describes: recorded for the session with a one-hour expiry, then swept |
| Csrf.CsrfProtection.ValidateToken | server/middleware/csrf.js:25-44 | answer and new store are those of `Validate`: an unknown token fails; an expired one fails and is deleted; a wrong session fails and keeps it; success consumes it |
| Csrf.CsrfProtection.CleanupExpiredTokens | server/middleware/csrf.js:46-53 | the loop deletes exactly the entries whose expiry is before now and keeps every other entry unchanged |
| Csrf.ValidateCsrfToken | server/middleware/csrf.js:67-95 | the middleware's verdict and store are those of `CsrfDecision` |
| Csrf.GetCsrfToken | server/middleware/csrf.js:98-111 | without a session: 500 and the store unchanged; with one: the issued token is returned and recorded |
| Csrf.IssueRecordsToken | server/middleware/csrf.js:10-23 | an issued token is stored for its session with expiry issue + 3600000 ms; the sweep keeps only unexpired entries, deletes only expired ones and changes no survivor |
| Csrf.ValidateSucceedsIff | server/middleware/csrf.js:25-44 | validation succeeds iff the token is known, not past its expiry (the expiry instant itself is accepted) and of the same session |
| Csrf.ValidateOutcomes | server/middleware/csrf.js:28-43 | each failure mode with the store it leaves, and success removes exactly the token |
| Csrf.MismatchKeepsToken | server/middleware/csrf.js:37-39 | a check under another session fails and its owner can still use the token afterwards |
| Csrf.ConsumedTokenNeverValidates | server/middleware/csrf.js:32-43 | once a token is consumed or deleted as expired, no later check accepts it for any session at any time |
| Csrf.IssuedTokenValidatesOnce | server/middleware/csrf.js:10-44 | an issued token validates for its session while unexpired, and only once |
| Csrf.OtherSessionNeverValidates | server/middleware/csrf.js:37-39 | an issued token is never accepted for another session |
| Csrf.SafeRequestsPass | server/middleware/csrf.js:69-76 | GET requests and the health check pass and leave the store alone |
| Csrf.UnsafeRequestVerdicts | server/middleware/csrf.js:78-92 | other requests: no token gives 403 "CSRF token missing"; the header token takes precedence over the body token; a failed check gives 403 "Invalid CSRF token" |
| Csrf.ReplayIsRejected | server/middleware/csrf.js:87-92 | replaying an accepted request is rejected as invalid |
| ContactValidation.NameErrors | server/routes/contact.js:9-14 | the name rule's errors are all against "name" |
| ContactValidation.EmailErrors | server/routes/contact.js:16-21 | the e-mail rule's errors are all against "email" |
| ContactValidation.PhoneErrors | server/routes/contact.js:23-26 | the phone rule's errors are all against "phone" |
| ContactValidation.CompanyErrors | server/routes/contact.js:28-32 | the company rule's errors are all against "company" |
| ContactValidation.ServiceErrors | server/routes/contact.js:34-37 | the service rule's errors are all against "service" |
| ContactValidation.MessageErrors | server/routes/contact.js:39-42 | the message rule's errors are all against "message" |
| ContactValidation.BotFieldErrors | server/routes/contact.js:45-52 | the honeypot rule's errors are all against "bot-field" |
| ContactValidation.ErrorsOfField | server/routes/contact.js:8-53 | a field has an error in the combined list iff its own rule reported one |
| ContactValidation.ValidateContact | server/routes/contact.js:8-53 | every reported error names one of the seven body fields |
| ContactValidation.SevenFields | server/routes/contact.js:8-53 | joining the seven rules' error lists keeps every error against its own field |
| ContactValidation.Sanitize | server/routes/contact.js:10-42 | phone, service and the honeypot are untouched; name, e-mail, company and message stay present exactly when given; an empty or absent company is untouched; a present e-mail is the normalised address |
| ContactValidation.NameRule | server/routes/contact.js:9-14 | the name passes iff, trimmed, it has 2 to 100 characters, all letters, white space, `-`, `'` or `.` |
| ContactValidation.EmailRule | server/routes/contact.js:16-21 | the e-mail passes iff the library accepts it and its normalised form has at most 255 characters |
| ContactValidation.PhoneRule | server/routes/contact.js:23-26 | a missing or empty phone passes; any other must match the phone pattern |
| ContactValidation.PhoneOfHyphensPasses | server/routes/contact.js:25 | ten hyphens pass the phone check |
| ContactValidation.PhoneFormattedPasses | server/routes/contact.js:25 | "+1(555)123-4567" passes the phone check |
| ContactValidation.PhoneOfNineDigitsFails | server/routes/contact.js:25 | nine digits fail the phone check |
| ContactValidation.CompanyRule | server/routes/contact.js:28-32 | a non-empty company must be at most 200 characters once trimmed |
| ContactValidation.ServiceRule | server/routes/contact.js:34-37 | a non-empty service must be one of the six service codes |
| ContactValidation.MessageRule | server/routes/contact.js:39-42 | the message passes iff, trimmed, it has 10 to 2000 characters |
| ContactValidation.MessageLengthBoundary | server/routes/contact.js:41 | a ten-character message passes and a nine-character one fails |
| ContactValidation.SpamRule | server/routes/contact.js:45-52 | a non-empty honeypot always yields "Spam detected" |
| ContactValidation.AcceptedIff | server/routes/contact.js:8-53 | a submission has no error iff every field's rule holds |
| ContactValidation.AcceptedBodyShape | server/routes/contact.js:8-53 | an accepted body has a trimmed name of 2-100 and message of 10-2000 characters, a known service if any, and an empty or missing honeypot |
| Patterns.PhonePatternIsRegex | server/routes/contact.js:25 | the direct reading (optional `+`, then ten or more class characters) accepts exactly what the regular expression accepts |
| Patterns.MatchIsPhonePattern | server/routes/contact.js:25 | every way the regular expression can match leaves ten or more class characters after an optional `+` |
| ContactController.ServiceName | server/controllers/contactController.js:81-92 | a known code gets its table name, any other "General Inquiry" |
| ContactController.ServiceTableMatchesCodes | server/controllers/contactController.js:82-89 | the name table has exactly the codes the validation admits, none named "General Inquiry" |
| ContactController.ServiceNameKnownIff | server/controllers/contactController.js:81-92 | a code gets its own name iff it is a valid service code |
| ContactController.EmailDataOf | server/controllers/contactController.js:36-46 | name, e-mail and message are carried over; phone and company default to "Not provided"; a missing service is "General Inquiry"; time, IP and user agent are recorded |
| ContactController.MaskEmail | server/controllers/contactController.js:28 | an address the mask pattern does not match is logged unchanged |
| ContactController.MaskSimpleAddress | server/controllers/contactController.js:28 | a one-line `local@domain` with two or more characters before the `@` is logged as its first two characters, `***@`, then the domain |
| ContactController.MaskWithoutAt | server/controllers/contactController.js:28 | an address without `@` is logged unchanged |
| ContactController.ReferenceIdParts | server/controllers/contactController.js:98-102 | the reference id is "PAI-", the upper-cased base-36 timestamp, "-", then the upper-cased random part |
| ContactController.ReferenceIdIsUpperCase | server/controllers/contactController.js:101 | the reference id has no lower-case letter |
| ContactController.ReferenceIdDecodes | server/controllers/contactController.js:99-101 | the segment after "PAI-" reads back in base 36 as the submission's timestamp |
| ContactController.ReferenceId | server/controllers/contactController.js:98-102 | the id starts with "PAI-" and has at least six characters |
| ContactController.Submission | server/controllers/contactController.js:11-73 | 400 iff validation reported an error; a process exit only when the error record cannot be written; a 500 exposes the detail iff in development; a 200 carries the submission time and the reference id, and with a transporter both mails were handed over; never more than two mails |
| ContactController.Attempted | server/controllers/contactController.js:23-52 | a missing e-mail throws at the mask; a mail is handed over only with an e-mail, a written submission record and a transporter; at most two mails |
| ContactController.Delivery | server/controllers/contactController.js:48-52 | at most two mails, and none without a transporter and a message; with both, the operator mail goes first and replies to the customer; with a transporter, a rejected operator mail always throws, and when it throws as rejected no second mail was handed over |
| ContactController.SubmitContact | server/controllers/contactController.js:11-73 | the answer and the mails handed over are those of `Submission`: 400 on errors; otherwise a failed submission record, a missing e-mail or a delivery that throws gives 500, or ends the process when the handler's own error record cannot be written; otherwise 200 |
| ContactController.Deliver | server/controllers/contactController.js:48-52 | the exception and the mails handed over are those of `Delivery`: each send and each log write it makes may fail on its own |
| ContactController.ValidationGate | server/controllers/contactController.js:14-21 | the answer is 400 iff validation reported an error, and then no mail is sent |
| ContactController.DeliveryOrder | server/controllers/contactController.js:48-52 | at most two mails; the operator mail comes first; the auto-reply is handed over iff there is a transporter and a message, the operator mail was accepted and its success record was written; a delivery with a transporter that does not throw handed over both |
| ContactController.MailOrder | server/controllers/contactController.js:26-52 | a mail is handed over only for a valid submission with an e-mail whose record was written; the first goes to the operator with the customer as reply-to; the second, only after the operator mail was accepted, goes to the customer with the auto-reply subject |
| ContactController.ServerErrorShape | server/controllers/contactController.js:64-71 | a 500 carries the fixed apology; the error detail is exposed only in development |
| ContactController.SuccessShape | server/controllers/contactController.js:55-62 | a 200 needs a valid submission with an e-mail whose record was written, and reports the submission time given to the e-mail data and the reference id; with a transporter, both mails went out |
| ContactController.HandlerLogGate | server/controllers/contactController.js:64-71 | the request ends in a 500 or a process exit iff it is valid and the work in the `try` threw; the process exits only when the handler's error record fails |
| ContactController.RejectedOperatorMailFails | server/controllers/contactController.js:49-52 | with every log write succeeding, a rejected operator mail turns the request into a 500 and an accepted one into a success, whatever happens to the auto-reply |
| ContactController.SubmissionLogFails | server/controllers/contactController.js:26 | a submission record that cannot be written gives a 500 and no mail |
| ContactController.SentRecordFailureFails | server/utils/emailService.js:64-66 | an accepted operator mail whose success record cannot be written gives a 500 after exactly that one mail |
| ContactController.AutoReplyFailureSwallowed | server/utils/emailService.js:95-105 | a rejected auto-reply is swallowed when its failure record is written, so the request succeeds after both mails; when that record fails too, the request gets a 500 |
| EmailService.SmtpPort | server/utils/emailService.js:21 | the port is never 0 |
| EmailService.SmtpPortDefault | server/utils/emailService.js:21 | an unset, empty or zero SMTP_PORT gives 587 |
| EmailService.SmtpPortOfNumeral | server/utils/emailService.js:21 | a positive decimal SMTP_PORT is used as given |
| EmailService.TransporterFor | server/utils/emailService.js:13-30 | the intended construction: a transporter exists iff host, user and password are set, and it uses them with the parsed port |
| EmailService.InitializeAsWritten | server/utils/emailService.js:13-30 | construction throws iff host, user and password are all set, because `createTransporter` is not a nodemailer function; otherwise there is no transporter |
| EmailService.InitializeAsWrittenDiverges | server/utils/emailService.js:19 | the service as written throws exactly where the intended one would build a transporter, and agrees with it everywhere else |
| EmailService.InitializeAsWrittenCounterexample | server/utils/emailService.js:19 | with host, user and password set, the service as written throws while the intended one builds the transporter on port 587 |
| EmailService.ReplaceNewlines | server/utils/emailService.js:163 | the HTML rendering of the message has no newline and loses no character |
| EmailService.RestoreReplaceNewlines | server/utils/emailService.js:163 | for a message without markup, turning `<br>` back into newlines restores the message |
| EmailService.ContactFormText | server/utils/emailService.js:184-203 | the text body opens with the heading and the name line, closes with the user-agent line, and is longer than the message |
| EmailService.ContactFormHtml | server/utils/emailService.js:113-177 | there is an HTML body iff there is a message; it opens with the heading, closes with the user-agent line and is no shorter than the message |
| EmailService.AutoReplyText | server/utils/emailService.js:266-290 | the text reply opens by greeting the customer by name and ends with the fixed body |
| EmailService.AutoReplyHtml | server/utils/emailService.js:210-259 | the HTML reply opens with the heading and the greeting by name and ends with the phone line |
| EmailService.TextCarriesMessage | server/utils/emailService.js:184-203 | the text body holds the message verbatim between "Message:" and the `---` rule |
| EmailService.HtmlCarriesMessage | server/utils/emailService.js:160-165 | the HTML body exists iff there is a message, and then holds it with its newlines as `<br>` |
| EmailService.ContactFormMail | server/utils/emailService.js:52-62 | the operator mail exists iff there is a message; it goes to EMAIL_TO or the default inbox, from the SMTP user, with the subject "New Quote Request from <name> - <service>" and the customer as reply-to |
| EmailService.ContactFormMailHtml | server/utils/emailService.js:52-60 | the operator mail's `html` is the contact-form HTML rendering |
| EmailService.ContactFormMailText | server/utils/emailService.js:53-59 | the operator mail's `text` is the contact-form text rendering |
| EmailService.AutoReplyMail | server/utils/emailService.js:87-93 | the auto-reply goes to the customer with the fixed subject, from the SMTP user, with no reply-to |
| EmailService.AutoReplyMailRendering | server/utils/emailService.js:84-92 | both parts of the auto-reply greet the customer by name |
| EmailService.Mailer.constructor | server/utils/emailService.js:5-8 | the service keeps the environment and the transporter it determines |
| EmailService.Mailer.SendContactFormEmail | server/utils/emailService.js:46-72 | no transporter: nothing is sent and only a failed warning throws; no message: rendering throws; otherwise the mail is handed over, and the call throws iff it was rejected or its success record failed; the error record failing replaces the rejection |
| EmailService.Mailer.SendAutoReply | server/utils/emailService.js:79-106 | with a transporter the auto-reply is handed over whether it is accepted or not; the call throws only when the mail was rejected or its success record failed and then the failure record could not be written |
| Logger.FormatRecord | server/utils/logger.js:16-23 | the record keeps the timestamp and message, upper-cases the level letter by letter, and has `data` iff it was truthy |
| Logger.JsonString | server/utils/logger.js:25 | a stringified string holds no newline |
| Logger.UnescapeEscape | server/utils/logger.js:25 | reading back the JSON escapes of a string gives the string |
| Logger.Serialize | server/utils/logger.js:25 | a stringified value never contains a newline |
| Logger.RecordText | server/utils/logger.js:25 | a stringified record is one line, so each record is one line of the file |
| Logger.LogFileNameOfIso | server/utils/logger.js:29-30 | the log file is named after the date part of the ISO time |
| Logger.LogFileName | server/utils/logger.js:29-30 | the name ends in ".log"; what comes before it is a prefix of the ISO time with no `T` |
| Logger.Appended | server/utils/logger.js:33 | appending adds the text to the named file, creating it if missing, and no other file changes |
| Logger.Log.constructor | server/utils/logger.js:5-8 | no file and no console line yet |
| Logger.Log.Write | server/utils/logger.js:36-55 | outside production the coloured line is echoed; the record's line is appended to the day's file; a failed append throws |
| Logger.Log.Error | server/utils/logger.js:57-59 | writes an "ERROR" record |
| Logger.Log.Warn | server/utils/logger.js:61-63 | writes a "WARN" record |
| Logger.Log.Info | server/utils/logger.js:65-67 | writes an "INFO" record |
| Logger.Log.Debug | server/utils/logger.js:69-73 | writes a "DEBUG" record only in development; otherwise nothing changes |
| Security.SessionConfig | server/config/security.js:5-16 | SESSION_SECRET or the development secret; cookie `pai_session`, HTTP-only, same-site strict, one day, secure only in production |
| Security.IndexIn | server/config/security.js:76 | the first position of the origin, or -1 exactly when it is absent |
| Security.AllowedOrigins | server/config/security.js:61-71 | the list is not empty; in production every entry is an https origin, elsewhere a plain-http one |
| Security.CorsOrigin | server/config/security.js:60-81 | an absent or empty origin is allowed; otherwise allowed iff on the environment's list, else refused with "Not allowed by CORS" |
| Security.OriginSchemes | server/config/security.js:61-71 | production admits only https origins, other environments only http ones |
| Security.CorsListsDisjoint | server/config/security.js:61-71 | an origin admitted in production is refused elsewhere |
| Security.RateLimitPolicies | server/config/security.js:88-116 | all three limits share a 15-minute window; contact (5) < auth (10) < general (100); only auth skips successful requests |
| Security.TooManyRequests | server/config/security.js:95-101 | the general limiter answers 429 with the reset time as `retryAfter` |
| Security.RouteLimitsAgree | server/config/security.js:136-139 | the route's message bound is the 2000-character limit and its name bound the 100-character one |
| Security.MonitoringLogLevel | server/config/security.js:147 | "info" exactly in production, "debug" in development |
| Https.CertPath | server/config/https.js:8 | SSL_CERT_PATH, or the Let's Encrypt `fullchain.pem` |
| Https.KeyPath | server/config/https.js:9 | SSL_KEY_PATH, or the Let's Encrypt `privkey.pem` |
| Https.HasSslCertificates | server/config/https.js:7-16 | certificates are present iff both files exist |
| Https.DefaultCertificates | server/config/https.js:8-12 | with neither variable set, the Let's Encrypt default files are the ones checked |
| Https.GetSslConfig | server/config/https.js:19-58 | the options exist iff both files can be read; they hold the two contents; the cipher string lists exactly the 21 ciphers in order; server cipher order is on |
| Https.CipherStringSplits | server/config/https.js:29-51 | splitting the colon-joined cipher string at `:` gives back the list |
| Https.RedirectToHttps | server/config/https.js:61-66 | a 301 to `https://` + host + URL happens iff in production, not secure and not forwarded as https; otherwise the request passes |
| Https.RedirectOnce | server/config/https.js:62-63 | the target keeps the URL, and the request coming back over TLS or through the proxy is not redirected again |
| Https.NoRedirectOutsideProduction | server/config/https.js:62-65 | outside production nothing is redirected |
| Https.ChallengeToken | server/config/https.js:72 | the token never contains a slash |
| Https.ChallengeTokenIsLastSegment | server/config/https.js:72 | the token is the part of the path after its last slash |
| Https.ChallengeTokenOfAcmePath | server/config/https.js:71-72 | a challenge path ending in a plain token yields that token |
| Https.ChallengeFile | server/config/https.js:73 | an ordinary token names a file inside the challenge directory |
| Https.ChallengeFileConfined | server/config/https.js:73 | whatever the token, the file lies under the root's `.well-known` |
| Https.LetsEncryptVerification | server/config/https.js:69-80 | a file is sent iff the path has the challenge prefix and the token's file exists; otherwise the request passes |
| Https.ChallengeResponse | server/config/https.js:71-77 | for an ordinary token, its file in the challenge directory is sent iff it exists |
| ClientForm.IsValidEmail | app.js:196-199 | an accepted address has an `@` and no white space |
| ClientForm.EmailDirectIsRegex | app.js:197 | the direct reading accepts exactly what `/^[^\s@]+@[^\s@]+\.[^\s@]+$/` accepts |
| ClientForm.RemoveWhitespace | app.js:203 | the result has no white space, is no longer, and is the input when it had none |
| ClientForm.IsValidPhone | app.js:201-204 | the phone is valid iff the regular expression accepts it with all white space removed |
| ClientForm.PhoneAfterRemoval | app.js:201-204 | the browser's phone check is the server's pattern applied after white space is removed |
| ClientForm.PhoneChecksAgree | app.js:201-204 | for a phone without white space, the browser and server checks agree |
| ClientForm.ServerCountsSpace | server/routes/contact.js:25 | the server accepts a space plus nine digits |
| ClientForm.BrowserDropsSpace | app.js:203 | the browser refuses a space plus nine digits |
| ClientForm.ServerRefusesSpaceBeforePlus | server/routes/contact.js:25 | the server refuses a space before the `+` |
| ClientForm.BrowserDropsSpaceBeforePlus | app.js:203 | the browser accepts a space before the `+` |
| ClientForm.ValidateField | app.js:151-171 | a field is valid iff its trimmed value is non-empty when required and, when non-empty, a valid e-mail or phone for its type; "required" is shown exactly for an empty required field |
| ClientForm.EmptyOptionalFieldIsValid | app.js:151-171 | an optional field holding only white space passes |
| ClientForm.ValidateForm | app.js:124-149 | one verdict per required field, then the untrimmed e-mail and phone re-checks; the answer is that all passed |
| ClientForm.FormIsValid | app.js:124-149 | a valid form has no required field left blank, and an e-mail typed with leading white space makes it invalid |
| ClientForm.UntrimmedEmailFailsForm | app.js:134-139 | an e-mail typed with leading white space fails the form even though its field check trims it |
| ClientForm.OnSubmit | app.js:100-106 | the form is posted iff it is valid |
| ClientForm.ApiUrl | app.js:431-433 | localhost and 127.0.0.1 post to port 3000; every other host posts to the same-origin `/api/contact` |
| ClientForm.SubmitNotice | app.js:445-482 | success and reset iff the reply is ok and successful, or the unreachable server's Netlify fallback worked; the server's message wins over the stock texts; Netlify is tried iff the server is unreachable and not local |
| Analytics.NewlyCrossed | js/analytics.js:178-185 | exactly the listed thresholds that are reached and not yet fired |
| Analytics.NewlyCrossedInOrder | js/analytics.js:178-185 | for a list without repeats, the crossed thresholds have no repeats, so each fires at most once per check, and come in list order |
| Analytics.PageScrollInOrder | js/analytics.js:173-185 | with the page's thresholds 25, 50, 75, 90, a check fires each at most once, in that order |
| Analytics.ScrollEvents | js/analytics.js:181-183 | one `scroll` event with `percent_scrolled` per crossed threshold, in order |
| Analytics.ScrollFiresOnce | js/analytics.js:178-185 | after a check, a scroll that is not deeper fires nothing |
| Analytics.AnalyticsManager.constructor | js/analytics.js:4-18 | not initialised, empty queue, nothing emitted, no threshold fired |
| Analytics.AnalyticsManager.Track | js/analytics.js:338-360 | before initialisation the event is queued, after it emitted; either way the history grows by the event |
| Analytics.AnalyticsManager.ProcessQueue | js/analytics.js:363-368 | the queue is emitted in order and emptied |
| Analytics.AnalyticsManager.Init | js/analytics.js:36-41 | the queue is flushed first, then the page view is emitted; the history grows by the page view only |
| Analytics.AnalyticsManager.CheckScroll | js/analytics.js:173-186 | the reached thresholds are marked and exactly the newly crossed ones fire, in threshold order; by `PageScrollInOrder` each fires at most once per check |
| Analytics.AnalyticsManager.FireAll | js/analytics.js:178-185 | the loop marks every reached threshold and fires exactly the newly crossed ones |
| Analytics.AnalyticsManager.Fire | js/analytics.js:179-184 | one threshold fires iff it is reached and not yet fired |
| Analytics.AnalyticsManager.TrackBusinessEvent | js/analytics.js:385-398 | tracks a `business_action` event with its parameters |
| Analytics.AnalyticsManager.TrackConversion | js/analytics.js:371-382 | tracks a `conversion` event with its parameters |
| Analytics.AnalyticsManager.TrackButtonClick | js/analytics.js:238-248 | tracks a `button_click` event with its parameters |
| Analytics.BusinessName | js/analytics.js:386-391 | exactly the four known actions have display names |
| Analytics.BusinessEventParams | js/analytics.js:393-397 | `action_type` and `action_name` are added, and the details override them |
| Analytics.UnknownActionNamedAfterItself | js/analytics.js:395 | an unknown action is named after itself |
| Analytics.ConversionParams | js/analytics.js:372-379 | type and timestamp always; `value` iff present and non-zero |
| Analytics.Prefix50 | js/analytics.js:240 | a prefix of at most 50 characters, the whole text when it is short enough |
| Analytics.ButtonClickParams | js/analytics.js:240-246 | the text is the trimmed label cut to 50 characters; the id defaults to "unnamed" |
| ImageLoader.Start | js/image-loader.js:62-68 | an element in flight or done is left alone; any other starts loading and is no longer observed |
| ImageLoader.Complete | js/image-loader.js:79-85 | the element moves from loading to loaded and gets the `loaded` class iff fade-in is on |
| ImageLoader.Fail | js/image-loader.js:90-94 | the element leaves loading without becoming loaded and gets the `error` class |
| ImageLoader.Observe | js/image-loader.js:170-174 | a loaded element is not watched again |
| ImageLoader.Destroy | js/image-loader.js:177-182 | all tracking sets are emptied; the classes stay |
| ImageLoader.StartLoad | js/image-loader.js:62-85 | an element in flight or done is left alone; an `IMG`, a `SOURCE` or a `data-bg` element starts loading; any other element is loaded at once, with no `await` |
| ImageLoader.StepsKeepDisjoint | js/image-loader.js:62-95 | no step makes an element both in flight and loaded |
| ImageLoader.StartIsIdempotent | js/image-loader.js:63-65 | a second `loadImage` while in flight or after success changes nothing |
| ImageLoader.RetryAfterFailure | js/image-loader.js:90-94 | after a failure the element can be loaded again |
| ImageLoader.StartAll | js/image-loader.js:164-167 | starting a list keeps loading and loaded apart and gives no element the `error` class |
| ImageLoader.StartAllLoading | js/image-loader.js:164-167 | after a list is started, loading holds the old in-flight elements and the listed awaiting ones not yet loaded; loaded gains exactly the listed non-awaiting ones not in flight |
| ImageLoader.BackgroundUrl | js/image-loader.js:140-145 | the WebP background iff WebP is known supported and that attribute is non-empty, else the plain one |
| ImageLoader.CssUrl | js/image-loader.js:152 | `url(` + the URL + `)` |
| ImageLoader.Loader.constructor | js/image-loader.js:4-25 | fade-in unless turned off; empty sets except the observed lazy elements; WebP support unknown |
| ImageLoader.Loader.ProbeAnswered | js/image-loader.js:28-34 | WebP is supported iff the probe image decoded with height 2 |
| ImageLoader.Loader.LoadImage | js/image-loader.js:62-85 | starts iff the element is neither in flight nor done; the new state is `StartLoad` |
| ImageLoader.Loader.CompleteLoad | js/image-loader.js:79-85 | the new state is `Complete` |
| ImageLoader.Loader.FailLoad | js/image-loader.js:90-94 | the new state is `Fail` |
| ImageLoader.Loader.LoadEach | js/image-loader.js:38-43 | the loop leaves the state `StartAll` gives for the listed elements |
| ImageLoader.Loader.ObserveElement | js/image-loader.js:170-174 | the new state is `Observe` |
| ImageLoader.Loader.DestroyLoader | js/image-loader.js:177-182 | the new state is `Destroy` |
| Cdn.CdnUrl | config/cdn.js:57-64 | Cloudflare wins, then CloudFront, then the local directory, with the path appended |
| Cdn.CdnUrlIsBasePlusPath | config/cdn.js:86 | the URL of a path is the base URL followed by the path |
| Cdn.SizesOrDefault | config/cdn.js:67 | the given sizes, or small, medium and large when none are given |
| Cdn.WebpWidth | config/cdn.js:69-74 | a descriptor exists iff the size is small, medium, large or hero, and is one of 300w, 600w, 1200w, 1920w |
| Cdn.JpegWidth | config/cdn.js:100 | always 300w, 600w or 1200w, and 1200w for every size other than small and medium |
| Cdn.WidthTablesAgreeOnDefaults | config/cdn.js:69-74 | the WebP and JPEG width tables agree on small, medium and large only; for hero they give 1920w and 1200w |
| Cdn.GenerateSrcSet | config/cdn.js:67-82 | the loop joins one entry per requested size, in order, with ", " |
| Cdn.SrcSet | config/cdn.js:67-82 | no sizes give the empty srcset; one size gives just its entry |
| Cdn.SrcSetEdges | config/cdn.js:76-81 | a srcset starts with the first size's entry and ends with the last size's |
| Cdn.SrcSetConcat | config/cdn.js:76-81 | the srcset of two size lists is the two srcsets joined by ", " |
| Cdn.SingleSizeSrcSet | config/cdn.js:78 | one size gives its WebP file under the CDN and its width |
| Cdn.DefaultSrcSet | config/cdn.js:67-81 | the default srcset lists small, medium and large at 300w, 600w and 1200w |
| Cdn.JpegEntriesUnderCdn | config/cdn.js:100 | each JPEG entry is the CDN URL of that size's JPEG with the JPEG width |
| Cdn.PictureElement | config/cdn.js:85-113 | the fallback image is the medium JPEG under the CDN; the WebP source uses the requested or default sizes; class and alt are carried over |
| OptimizeImages.ImageFileIgnoresCase | scripts/optimize-images.js:113 | the image-file test ignores case |
| OptimizeImages.IsImageFile | scripts/optimize-images.js:113 | a name that passes has at least four characters |
| OptimizeImages.ImageFiles | scripts/optimize-images.js:112-114 | exactly the listed names that are image files |
| OptimizeImages.Extname | scripts/optimize-images.js:37 | the extension ends the name, begins with its only dot, and is shorter than the name |
| OptimizeImages.Basename | scripts/optimize-images.js:37 | the base name followed by the extension is the file name |
| OptimizeImages.BasenameStripsFinalExtension | scripts/optimize-images.js:37 | only the last extension is stripped |
| OptimizeImages.DotFileHasNoExtension | scripts/optimize-images.js:37 | a dot file keeps its leading dot in the base name |
| OptimizeImages.EncodingFor | scripts/optimize-images.js:64-68 | WebP at quality 85 and progressive JPEG at quality 80 |
| OptimizeImages.Skipped | scripts/optimize-images.js:47-51 | a size is skipped only when both dimensions are reported, and never when the original is at least as wide or as high |
| OptimizeImages.Plan | scripts/optimize-images.js:45-90 | a file plans at least the two full-size copies and at most two outputs for each of the five sizes plus those |
| OptimizeImages.FormatOrder | scripts/optimize-images.js:54-68 | each kept size is written as WebP, then JPEG, at those settings |
| OptimizeImages.OnlyKeptSizes | scripts/optimize-images.js:46-51 | every resized output is at a configured size that was not skipped |
| OptimizeImages.KeptSizeIsWritten | scripts/optimize-images.js:46-56 | a size gets its outputs iff it is not skipped |
| OptimizeImages.TinyImageGetsOnlyFullSize | scripts/optimize-images.js:46-90 | an image under 150 px in both directions gets only the full-size copies |
| OptimizeImages.LargeImageGetsEverySize | scripts/optimize-images.js:46-90 | an image at least hero-sized, or with unknown dimensions, gets all 12 outputs |
| OptimizeImages.FullOutputsOrder | scripts/optimize-images.js:76-78 | the full-size copies are `<base>-full.webp` then `<base>-full.jpg`, not resized |
| OptimizeImages.FullSizeLast | scripts/optimize-images.js:76-90 | whatever the metadata, the plan ends with the full-size copies |
| OptimizeImages.SameStemSamePlan | scripts/optimize-images.js:37 | photo.jpg and photo.png plan the same output files, so the later one overwrites |
| OptimizeImages.CompletedIsWrittenPrefix | scripts/optimize-images.js:41-94 | what gets written is a prefix of the plan; every write in it succeeded; the next one failed |
| OptimizeImages.AllWritten | scripts/optimize-images.js:70 | when every write succeeds, the whole plan is written |
| OptimizeImages.Created | scripts/optimize-images.js:41-94 | nothing without metadata; otherwise a prefix of the plan whose every write succeeded |
| OptimizeImages.WriteSize | scripts/optimize-images.js:54-72 | the format loop writes one size's outputs up to the first failure |
| OptimizeImages.WriteFullSize | scripts/optimize-images.js:76-90 | the full-size loop writes its outputs up to the first failure |
| OptimizeImages.ProcessImage | scripts/optimize-images.js:35-95 | nothing is written when metadata cannot be read; otherwise the plan up to the first failing write |
| OptimizeImages.Optimize | scripts/optimize-images.js:98-135 | a failed directory creation, a missing input directory and no image files each end the run; otherwise each image file is processed in listing order |
| Numerals.ToRadix | server/controllers/contactController.js:99 | a non-empty string of lower-case digits of the radix |
| Numerals.FromRadixToRadix | server/controllers/contactController.js:99 | reading back the printed numeral gives the number |
| Numerals.ParseInt | server/utils/emailService.js:21 | an unset variable parses to NaN |
| Numerals.ParseIntOfDecimal | server/utils/emailService.js:21 | the decimal numeral printed for a number, followed by nothing or by a character that is neither a digit nor a letter, parses to that number |
| Numerals.ParseIntOfDecimalNumeral | server/utils/emailService.js:21 | any run of decimal digits, leading zeros included, followed by nothing or by a character that is neither a digit nor a letter, parses to its value |
| Numerals.ParseIntSkipsWhitespace | server/utils/emailService.js:21 | leading white space does not change the result |
| Numerals.ParseIntOfPlus | server/utils/emailService.js:21 | a leading `+` does not change the result |
| Numerals.ParseIntOfNegative | server/utils/emailService.js:21 | `-` followed by a decimal numeral parses to its negation ("-25" is -25) |
| Numerals.ParseIntOfTwoSigns | server/utils/emailService.js:21 | two signs in a row parse to NaN |
| Numerals.ParseIntOfHex | server/utils/emailService.js:21 | `0x` or `0X` followed by hex digits parses them in base 16 ("0x1A" is 26) |
| Numerals.ParseIntOfEmpty | server/utils/emailService.js:21 | the empty string parses to NaN |

## Left out

- Markup and CSS of the four mail templates: only the interpolated fields, the message and its `<br>` rewrite are modelled.
- `transporter.verify` (server/utils/emailService.js:33-39), its log records and the module-load warning (server/utils/emailService.js:15): they are diagnostics and do not change which mails are sent; with the TypeError of `createTransporter` the `verify` call is never reached.
- `serviceMap` lookups of inherited object keys such as `constructor`: the table is a `map` holding only its own keys.
- How `JSON.stringify` writes `undefined`, errors, floats and nested objects beyond integers, strings, booleans, null and plain objects.
- Floating point: numbers are integers. The scroll percentage is passed in as an integer, and `toLocaleString` is passed in as the `localeDate` text.
- Numerals.ParseInt: integers are unbounded, so `parseInt`'s loss of precision above 2^53 is not modelled.
- Strings.ToUpper: ASCII letters only; Unicode case mapping is not modelled.
- Analytics.Prefix50: it cuts after 50 characters, while JavaScript's `slice` counts UTF-16 code units.
- ContactValidation.ValidateContact: request-body fields are taken to be strings or absent. `express.json()` can also hand numbers, arrays or objects to the validator chain (server/routes/contact.js:8-53) and to the e-mail data (server/controllers/contactController.js:36-46); those are not modelled.
- ContactValidation.EmailErrors: the validator library's `isEmail` and `normalizeEmail` are parameters, not reimplemented.
- OptimizeImages.Extname: takes names without a `/`. `fs.readdir` entries have none; the general `path.extname` is not modelled.
- OptimizeImages.Basename: same restriction as `Extname`.
- Https.ChallengeFile: `path.join` is modelled for a normalised root and a token without a slash, the only tokens `split('/').pop()` yields.
- Https.LetsEncryptVerification: `req.path` is taken as given; URL decoding by Express is not modelled.
- Https.HasSslCertificates: the `try/catch` is not modelled; `fs.existsSync` does not throw, and file existence is an oracle.
- Https.GetSslConfig: the `secureOptions` bit mask is not modelled.
- `sslSetupInstructions`: a fixed help text.
- Image processing by `sharp`: metadata and write results are oracles (`metadata`, `written`). Directory creation is the flag `directoriesCreated`.
- Console output of the optimisation script and of the controller's `console.error`.
- The counting of requests by `express-rate-limit`: the policies are data; only the general limiter's 429 answer is modelled.
- Helmet, the content security policy and `securityHeaders`: static header values.
- The allowed upload types and the 5 MB file limit: no route in the core accepts uploads.
- The Express wiring of server/app-secure.js is a composition, not one model function. It chains the limiter, then `validateCSRFToken`, then the validators, then `submitContact`.
- The contact test route (server/routes/contact.js:58-66): a diagnostic echo.
- Server bootstrap and listening.
- config/analytics.js is not part of this model.
- DOM wiring: event listeners, element lookups, animations.
- The `fetch` calls and parsing of the reply: the result is a `BackendResult` argument.
- Sending analytics events: Google Analytics, Tag Manager and the `analytics_track` dispatch. The model keeps the ordered list of emitted events.
- Script loading in analytics `init`, and its failure branch.
- The analytics manager's other listeners: form, download, external-link, search and performance tracking, and the Do Not Track opt-out.
- The internals of `IntersectionObserver` and `MutationObserver`: which elements intersect is an argument.
- `loadImgElement` / `loadSourceElement` attribute copying. The loader keeps which element is loading, loaded or failed, not its `src`/`srcset`.
- Cdn.GenerateSrcSet: takes the size list explicitly. The default list of the JavaScript default parameter is applied by `SizesOrDefault`, which `PictureElement` uses.
- The HTML string of `generatePictureElement`: its attribute values are modelled, not its text.
- The CDN's cache-control strings, breakpoints, quality figures, lazy-load options and setup texts: constants no other code reads.
- `crypto.randomBytes`, `Math.random` and `Date.now`: parameters.
- Analytics.BusinessName: `businessEvents[action]` also finds inherited object keys such as `constructor` (js/analytics.js:395); the table is a `map` holding only its own keys.
- Cdn.WebpWidth: `sizeMap[size]` also finds inherited object keys (config/cdn.js:78); the table is a `map` holding only its own keys.
- ContactValidation.NameErrors: the validator library's `isLength` does not count U+FE0E and U+FE0F; the model counts every character.
- ContactValidation.CompanyErrors: same `isLength` difference as `NameErrors`.
- ContactValidation.MessageErrors: same `isLength` difference as `NameErrors`.
- ContactController.MaskEmail: the pattern's `(.{2})` counts UTF-16 code units; the model counts characters.
- The log writes themselves are oracles: which of them throw is the `LogFaults` argument of `Submission`.

## Findings

| source | as written | input that shows it | evidently intended | confidence | as-written member | corrected member |
|---|---|---|---|---|---|---|
| server/utils/emailService.js:19 | `nodemailer.createTransporter(...)`, a function nodemailer does not export, so the call throws a TypeError and `new EmailService()` fails. That constructor runs at module load (`module.exports = new EmailService()`, server/utils/emailService.js:293), so `require('../utils/emailService')` at server/controllers/contactController.js:2 throws too. The contact route loads the controller (server/routes/contact.js:3) and both servers load the route (server/app.js:13, server/app-secure.js:21), so with all three variables set the server does not start | SMTP_HOST, SMTP_USER and SMTP_PASS all set (`InitializeAsWrittenCounterexample`) | `nodemailer.createTransport(...)`, which builds the SMTP transporter | not executed | EmailService.InitializeAsWritten | EmailService.TransporterFor |
