/** The process environment the server reads (`process.env`); an unset variable is `None`. */
module Environment {
  import opened Wrappers

  datatype Env = Env(
    nodeEnv: Option<string>,      // NODE_ENV
    smtpHost: Option<string>,     // SMTP_HOST
    smtpPort: Option<string>,     // SMTP_PORT
    smtpUser: Option<string>,     // SMTP_USER
    smtpPass: Option<string>,     // SMTP_PASS
    emailTo: Option<string>,      // EMAIL_TO
    sessionSecret: Option<string>, // SESSION_SECRET
    sslCertPath: Option<string>,  // SSL_CERT_PATH
    sslKeyPath: Option<string>    // SSL_KEY_PATH
  )

  /** `process.env.NODE_ENV === 'production'`. */
  predicate IsProduction(env: Env) { env.nodeEnv == Some("production") }

  /** `process.env.NODE_ENV === 'development'`. */
  predicate IsDevelopment(env: Env) { env.nodeEnv == Some("development") }
}
