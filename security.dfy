/** The request-level security policy (`securityConfig`): the session cookie, the CORS origin
    decision, the rate-limit policies with the 429 answer of the general limiter, the input
    limits and the monitoring level. The counting done by the rate limiter is not modelled; the
    policies are data. */
module Security {
  import opened Wrappers
  import opened Strings
  import opened Environment
  import opened ContactValidation

  // ---------------------------------------------------------------------------------------
  // Session

  /** The options of the session cookie. */
  datatype Cookie = Cookie(secure: bool, httpOnly: bool, maxAgeMs: nat, sameSite: string)

  /** `securityConfig.session`. */
  datatype SessionPolicy = SessionPolicy(
    secret: string, name: string, resave: bool, saveUninitialized: bool, cookie: Cookie)

  const DevSecret := "dev-secret-change-in-production"
  const DayMs: nat := 24 * 60 * 60 * 1000

  function SessionConfig(env: Env): (p: SessionPolicy)
    ensures Truthy(env.sessionSecret) ==> p.secret == env.sessionSecret.value
    ensures !Truthy(env.sessionSecret) ==> p.secret == DevSecret
    ensures p.name == "pai_session" && !p.resave && !p.saveUninitialized
    ensures p.cookie.secure <==> IsProduction(env)
    ensures p.cookie.httpOnly && p.cookie.sameSite == "strict" && p.cookie.maxAgeMs == 86400000
  {
    SessionPolicy(
      secret := OrElse(env.sessionSecret, DevSecret),
      name := "pai_session",
      resave := false,
      saveUninitialized := false,
      cookie := Cookie(secure := IsProduction(env), httpOnly := true, maxAgeMs := DayMs, sameSite := "strict"))
  }

  // ---------------------------------------------------------------------------------------
  // CORS

  const ProductionOrigins: seq<string> :=
    ["https://deusgroup.github.io", "https://paitrucking.com", "https://www.paitrucking.com"]
  const DevelopmentOrigins: seq<string> :=
    ["http://localhost:8000", "http://127.0.0.1:8000", "http://localhost:3000"]

  /** The allow-list of the running environment. */
  function AllowedOrigins(env: Env): (r: seq<string>)
    ensures r != []
    ensures IsProduction(env) ==> forall o :: o in r ==> StartsWith(o, "https://")
    ensures !IsProduction(env) ==> forall o :: o in r ==> StartsWith(o, "http://")
  {
    ListSchemes();
    if IsProduction(env) then ProductionOrigins else DevelopmentOrigins
  }

  /** `Array.prototype.indexOf`: the first position of `x`, or -1. */
  function IndexIn(xs: seq<string>, x: string): (r: int)
    ensures -1 <= r < |xs|
    ensures r == -1 <==> x !in xs
    ensures r >= 0 ==> xs[r] == x && x !in xs[..r]
  {
    if xs == [] then -1
    else if xs[0] == x then 0
    else
      var r := IndexIn(xs[1..], x);
      assert xs[1..] == xs[1..][..|xs| - 1];
      if r == -1 then -1
      else
        assert xs[..r + 1] == [xs[0]] + xs[1..][..r];
        r + 1
  }

  /** What the `origin` callback answers: allowed, or the error it is called with. */
  datatype CorsVerdict = Allowed | Refused(error: string)

  const CorsError := "Not allowed by CORS"

  /** The `origin` callback: a falsy origin (none, or empty) is allowed; otherwise the origin
      must be on the allow-list. */
  function CorsOrigin(env: Env, origin: Option<string>): (v: CorsVerdict)
    ensures v.Allowed? <==> !Truthy(origin) || origin.value in AllowedOrigins(env)
    ensures v.Refused? ==> v.error == CorsError
  {
    if !Truthy(origin) then Allowed
    else if IndexIn(AllowedOrigins(env), origin.value) != -1 then Allowed
    else Refused(CorsError)
  }

  /** Every production origin is an https origin. */
  lemma ProductionSchemes(o: string)
    ensures o in ProductionOrigins ==> StartsWith(o, "https://")
  {
    assert StartsWith(ProductionOrigins[0], "https://");
    assert StartsWith(ProductionOrigins[1], "https://");
    assert StartsWith(ProductionOrigins[2], "https://");
  }

  /** Every development origin is a plain-http origin. */
  lemma DevelopmentSchemes(o: string)
    ensures o in DevelopmentOrigins ==> StartsWith(o, "http://")
  {
    assert StartsWith(DevelopmentOrigins[0], "http://");
    assert StartsWith(DevelopmentOrigins[1], "http://");
    assert StartsWith(DevelopmentOrigins[2], "http://");
  }

  /** Every production origin is https, every development origin plain http. */
  lemma ListSchemes()
    ensures forall o :: o in ProductionOrigins ==> StartsWith(o, "https://")
    ensures forall o :: o in DevelopmentOrigins ==> StartsWith(o, "http://")
  {
    forall o | o in ProductionOrigins ensures StartsWith(o, "https://") {
      ProductionSchemes(o);
    }
    forall o | o in DevelopmentOrigins ensures StartsWith(o, "http://") {
      DevelopmentSchemes(o);
    }
  }

  /** Production admits only https origins; elsewhere only plain-http ones. */
  lemma OriginSchemes(env: Env, o: string)
    requires CorsOrigin(env, Some(o)).Allowed? && o != ""
    ensures IsProduction(env) ==> StartsWith(o, "https://")
    ensures !IsProduction(env) ==> StartsWith(o, "http://")
  {
    ProductionSchemes(o);
    DevelopmentSchemes(o);
  }

  /** An origin production admits is refused elsewhere: the two lists share nothing. */
  lemma CorsListsDisjoint(prod: Env, dev: Env, o: string)
    requires IsProduction(prod) && !IsProduction(dev) && o != ""
    requires CorsOrigin(prod, Some(o)).Allowed?
    ensures CorsOrigin(dev, Some(o)) == Refused(CorsError)
  {
    OriginSchemes(prod, o);
    DevelopmentSchemes(o);
    assert o[4] == 's';
  }

  // ---------------------------------------------------------------------------------------
  // Rate limiting

  /** One `express-rate-limit` policy (`skipSuccessfulRequests` is false unless set). */
  datatype RateLimit = RateLimit(windowMs: nat, max: nat, skipSuccessfulRequests: bool, message: string)

  const FifteenMinutesMs: nat := 15 * 60 * 1000

  const GeneralLimit := RateLimit(FifteenMinutesMs, 100, false, GeneralLimitMsg)
  const ContactLimit := RateLimit(FifteenMinutesMs, 5, false, ContactLimitMsg)
  const AuthLimit := RateLimit(FifteenMinutesMs, 10, true, AuthLimitMsg)

  const GeneralLimitMsg := "Too many requests from this IP, please try again later."
  const ContactLimitMsg := "Too many contact form submissions, please try again later."
  const AuthLimitMsg := "Too many authentication attempts, please try again later."

  /** The three policies share the 15-minute window; the contact form is the strictest and the
      only one besides the general limit that also counts successful requests. */
  lemma RateLimitPolicies()
    ensures GeneralLimit.windowMs == ContactLimit.windowMs == AuthLimit.windowMs == 900000
    ensures ContactLimit.max < AuthLimit.max < GeneralLimit.max
    ensures !ContactLimit.skipSuccessfulRequests && AuthLimit.skipSuccessfulRequests
  {
  }

  /** The JSON body of the general limiter's answer. */
  datatype LimitReply = LimitReply(status: nat, success: bool, message: string, retryAfter: int)

  /** The general limiter's `handler`: 429, and `retryAfter` is the window's reset time. */
  function TooManyRequests(resetTime: int): (r: LimitReply)
    ensures r.status == 429 && !r.success && r.retryAfter == resetTime
    ensures r.message == "Too many requests, please try again later."
  {
    LimitReply(429, false, "Too many requests, please try again later.", resetTime)
  }

  // ---------------------------------------------------------------------------------------
  // Input limits and monitoring

  const MaxFieldLength: nat := 2000
  const MaxEmailLength: nat := 255
  const MaxNameLength: nat := 100
  const MaxPhoneLength: nat := 20
  const AllowedFileTypes: seq<string> := ["image/jpeg", "image/png", "image/gif", "application/pdf"]
  const MaxFileSize: nat := 5 * 1024 * 1024

  /** The contact route's own bounds agree with these limits: a message or name of exactly the
      maximum (trimmed) length passes its length check, one more character fails it. */
  lemma RouteLimitsAgree(m: string, n: string)
    ensures |Trim(m)| == MaxFieldLength ==> MessageErrors(Some(m)) == []
    ensures |Trim(m)| == MaxFieldLength + 1 ==> MessageErrors(Some(m)) != []
    ensures |Trim(n)| == MaxNameLength + 1 ==> NameErrors(Some(n)) != []
  {
  }

  /** `monitoring.logLevel`: "info" in production, "debug" elsewhere. */
  function MonitoringLogLevel(env: Env): (level: string)
    ensures IsProduction(env) <==> level == "info"
    ensures IsDevelopment(env) ==> level == "debug"
  {
    if IsProduction(env) then "info" else "debug"
  }
}
