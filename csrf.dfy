/** The CSRF token store (`CSRFProtection`) and the two request handlers built on it: the
    validating middleware and the token endpoint. Tokens are single-use, bound to the session
    that requested them, and expire one hour after issue. The random token text and every
    reading of the clock (`Date.now()`, in milliseconds) are parameters. */
module Csrf {
  import opened Wrappers
  import opened Strings

  /** `tokenExpiry`: one hour, in milliseconds. */
  const TokenLifetimeMs: int := 60 * 60 * 1000

  /** What the store records against a token. */
  datatype TokenData = TokenData(sessionId: string, expiry: int)

  type TokenMap = map<string, TokenData>

  /** The store after `cleanupExpiredTokens` at instant `now`: an entry survives iff its expiry
      is not before `now`. */
  function Sweep(tokens: TokenMap, now: int): (r: TokenMap)
    ensures forall t :: t in r ==> t in tokens && r[t] == tokens[t] && r[t].expiry >= now
    ensures forall t :: t in tokens && tokens[t].expiry >= now ==> t in r
  {
    map t | t in tokens && tokens[t].expiry >= now :: tokens[t]
  }

  /** The store after `generateToken`: the token is recorded against the session with expiry
      `issuedAt` plus one hour, then the store is swept at `sweptAt` (the sweep reads the clock
      again). */
  function Issue(tokens: TokenMap, token: string, sessionId: string, issuedAt: int, sweptAt: int): (r: TokenMap)
    ensures token in r <==> sweptAt <= issuedAt + 3600000
    ensures token in r ==> r[token] == TokenData(sessionId, issuedAt + 3600000)
    ensures forall t :: t in r ==> r[t].expiry >= sweptAt
    ensures forall t :: t in r && t != token ==> t in tokens && r[t] == tokens[t]
  {
    Sweep(tokens[token := TokenData(sessionId, issuedAt + TokenLifetimeMs)], sweptAt)
  }

  /** The answer of `validateToken` and the store it leaves behind. */
  datatype Check = Check(valid: bool, tokens: TokenMap)

  /** `validateToken(token, sessionId)` with the clock reading `now`: an unknown token fails and
      changes nothing; an expired one fails and is deleted; a token of another session fails and
      stays; otherwise the token is consumed. */
  function Validate(tokens: TokenMap, token: string, sessionId: string, now: int): (r: Check)
    ensures r.valid <==> token in tokens && now <= tokens[token].expiry && tokens[token].sessionId == sessionId
    ensures r.tokens == tokens || r.tokens == tokens - {token}
    ensures token in r.tokens <==> token in tokens && now <= tokens[token].expiry && !r.valid
  {
    if token !in tokens then Check(false, tokens)
    else if tokens[token].expiry < now then Check(false, tokens - {token})
    else if tokens[token].sessionId != sessionId then Check(false, tokens)
    else Check(true, tokens - {token})
  }

  class CsrfProtection {
    var tokens: TokenMap
    const tokenExpiry: int := TokenLifetimeMs

    constructor ()
      ensures tokens == map[]
    {
      tokens := map[];
    }

    /** `generateToken(sessionId)`; `random` is the hex text of the 32 random bytes. */
    method GenerateToken(sessionId: string, random: string, issuedAt: int, sweptAt: int) returns (token: string)
      modifies this
      ensures token == random
      ensures tokens == Issue(old(tokens), random, sessionId, issuedAt, sweptAt)
    {
      token := random;
      var expiry := issuedAt + tokenExpiry;
      tokens := tokens[token := TokenData(sessionId, expiry)];
      CleanupExpiredTokens(sweptAt);
    }

    method ValidateToken(token: string, sessionId: string, now: int) returns (valid: bool)
      modifies this
      ensures Check(valid, tokens) == Validate(old(tokens), token, sessionId, now)
    {
      if token !in tokens {
        return false;
      }
      var data := tokens[token];
      if data.expiry < now {
        tokens := tokens - {token};
        return false;
      }
      if data.sessionId != sessionId {
        return false;
      }
      tokens := tokens - {token};
      return true;
    }

    /** Visits every entry once and deletes the expired ones. */
    method CleanupExpiredTokens(now: int)
      modifies this
      ensures tokens == Sweep(old(tokens), now)
    {
      ghost var start := tokens;
      var pending := tokens.Keys;
      while pending != {}
        invariant pending <= tokens.Keys <= start.Keys
        invariant forall t :: t in tokens ==> tokens[t] == start[t]
        invariant forall t :: t in start && t !in pending ==> (t in tokens <==> start[t].expiry >= now)
        decreases pending
      {
        var t :| t in pending;
        if tokens[t].expiry < now {
          tokens := tokens - {t};
        }
        pending := pending - {t};
      }
    }
  }

  /** The parts of a request the middleware looks at. */
  datatype CsrfRequest = CsrfRequest(
    httpMethod: string,
    path: string,
    sessionId: string,
    headerToken: Option<string>,  // the x-csrf-token header
    bodyToken: Option<string>     // the _csrf body field
  )

  /** `req.headers['x-csrf-token'] || req.body._csrf`, or None when that is falsy. */
  function SubmittedToken(req: CsrfRequest): Option<string> {
    if Truthy(req.headerToken) then req.headerToken
    else if Truthy(req.bodyToken) then req.bodyToken
    else None
  }

  /** The outcome of `validateCSRFToken`: `next()`, or a 403 JSON reply with `success: false`. */
  datatype Verdict = PassThrough | Forbidden(message: string)

  datatype Decision = Decision(verdict: Verdict, tokens: TokenMap)

  /** `validateCSRFToken` on the store `tokens` at instant `now`. */
  function CsrfDecision(tokens: TokenMap, req: CsrfRequest, now: int): (r: Decision)
    ensures r.verdict == PassThrough <==>
      || req.httpMethod == "GET" || req.path == "/api/health"
      || (SubmittedToken(req).Some? && Validate(tokens, SubmittedToken(req).value, req.sessionId, now).valid)
    ensures r.tokens == tokens || (SubmittedToken(req).Some? && r.tokens == tokens - {SubmittedToken(req).value})
    ensures r.verdict.Forbidden? ==> r.verdict.message == "CSRF token missing" || r.verdict.message == "Invalid CSRF token"
  {
    if req.httpMethod == "GET" || req.path == "/api/health" then Decision(PassThrough, tokens)
    else
      match SubmittedToken(req)
      case None => Decision(Forbidden("CSRF token missing"), tokens)
      case Some(token) =>
        var c := Validate(tokens, token, req.sessionId, now);
        Decision(if c.valid then PassThrough else Forbidden("Invalid CSRF token"), c.tokens)
  }

  /** The `validateCSRFToken` middleware on the shared store. */
  method ValidateCsrfToken(csrf: CsrfProtection, req: CsrfRequest, now: int) returns (verdict: Verdict)
    modifies csrf
    ensures Decision(verdict, csrf.tokens) == CsrfDecision(old(csrf.tokens), req, now)
  {
    if req.httpMethod == "GET" {
      return PassThrough;
    }
    if req.path == "/api/health" {
      return PassThrough;
    }
    var token := SubmittedToken(req);
    if token.None? {
      return Forbidden("CSRF token missing");
    }
    var valid := csrf.ValidateToken(token.value, req.sessionId, now);
    if !valid {
      return Forbidden("Invalid CSRF token");
    }
    return PassThrough;
  }

  /** The reply of `getCSRFToken`: 500 without a session, else `{success: true, csrfToken}`. */
  datatype TokenReply = SessionNotConfigured | TokenIssued(csrfToken: string) {
    function Status(): int {
      if SessionNotConfigured? then 500 else 200
    }
  }

  /** `getCSRFToken`, with the token factory that `generateCSRFToken` installs on requests that
      carry a session. */
  method GetCsrfToken(csrf: CsrfProtection, hasSession: bool, sessionId: string, random: string,
                      issuedAt: int, sweptAt: int) returns (reply: TokenReply)
    modifies csrf
    ensures !hasSession ==> reply == SessionNotConfigured && csrf.tokens == old(csrf.tokens)
    ensures hasSession ==>
      reply == TokenIssued(random) && csrf.tokens == Issue(old(csrf.tokens), random, sessionId, issuedAt, sweptAt)
  {
    if !hasSession {
      return SessionNotConfigured;
    }
    var token := csrf.GenerateToken(sessionId, random, issuedAt, sweptAt);
    return TokenIssued(token);
  }

  // ---------------------------------------------------------------------------------------
  // Properties of the token lifecycle

  /** A freshly issued token is recorded against its session with expiry exactly one hour after
      issue, and the sweep that follows keeps it unless the clock has moved on by more than an
      hour; no entry the sweep leaves is expired, and the sweep deletes only expired entries. */
  lemma IssueRecordsToken(tokens: TokenMap, token: string, sessionId: string, issuedAt: int, sweptAt: int)
    requires sweptAt <= issuedAt + TokenLifetimeMs
    ensures var r := Issue(tokens, token, sessionId, issuedAt, sweptAt);
      && token in r && r[token] == TokenData(sessionId, issuedAt + 3600000)
      && (forall t :: t in r ==> r[t].expiry >= sweptAt)
      && (forall t :: t in tokens && t != token ==> (t in r <==> tokens[t].expiry >= sweptAt))
      && (forall t :: t in r && t != token ==> t in tokens && r[t] == tokens[t])
  {
  }

  /** `validateToken` succeeds exactly for a known, unexpired token of the caller's session; a
      token checked at exactly its expiry instant is still accepted. */
  lemma ValidateSucceedsIff(tokens: TokenMap, token: string, sessionId: string, now: int)
    ensures Validate(tokens, token, sessionId, now).valid
      <==> token in tokens && now <= tokens[token].expiry && tokens[token].sessionId == sessionId
  {
  }

  /** Each failure mode and what it does to the store. */
  lemma ValidateOutcomes(tokens: TokenMap, token: string, sessionId: string, now: int)
    ensures token !in tokens ==> Validate(tokens, token, sessionId, now) == Check(false, tokens)
    ensures token in tokens && tokens[token].expiry < now ==>
      Validate(tokens, token, sessionId, now) == Check(false, tokens - {token})
    ensures token in tokens && tokens[token].expiry >= now && tokens[token].sessionId != sessionId ==>
      Validate(tokens, token, sessionId, now) == Check(false, tokens)
    ensures Validate(tokens, token, sessionId, now).valid ==>
      Validate(tokens, token, sessionId, now).tokens == tokens - {token}
  {
  }

  /** A token checked under the wrong session stays in the store, so its own session can still
      use it afterwards. */
  lemma MismatchKeepsToken(tokens: TokenMap, token: string, other: string, now: int, later: int)
    requires token in tokens && tokens[token].sessionId != other
    requires now <= later <= tokens[token].expiry
    ensures !Validate(tokens, token, other, now).valid
    ensures Validate(Validate(tokens, token, other, now).tokens, token, tokens[token].sessionId, later).valid
  {
  }

  /** Single use: once a check has consumed a token, or deleted it as expired, no later check
      accepts it, whatever the session and the instant. */
  lemma ConsumedTokenNeverValidates(tokens: TokenMap, token: string, sessionId: string, now: int,
                                    anySession: string, later: int)
    requires token in tokens
    requires Validate(tokens, token, sessionId, now).valid || tokens[token].expiry < now
    ensures !Validate(Validate(tokens, token, sessionId, now).tokens, token, anySession, later).valid
  {
  }

  /** A token issued for a session validates for that session while unexpired, exactly once. */
  lemma IssuedTokenValidatesOnce(tokens: TokenMap, token: string, sessionId: string,
                                 issuedAt: int, sweptAt: int, now: int, later: int)
    requires sweptAt <= issuedAt + TokenLifetimeMs && now <= issuedAt + TokenLifetimeMs
    ensures var first := Validate(Issue(tokens, token, sessionId, issuedAt, sweptAt), token, sessionId, now);
      first.valid && !Validate(first.tokens, token, sessionId, later).valid
  {
    IssueRecordsToken(tokens, token, sessionId, issuedAt, sweptAt);
  }

  /** A token is never accepted for a session other than the one it was issued for, expired or
      not. */
  lemma OtherSessionNeverValidates(tokens: TokenMap, token: string, sessionId: string,
                                   issuedAt: int, sweptAt: int, other: string, now: int)
    requires other != sessionId
    ensures !Validate(Issue(tokens, token, sessionId, issuedAt, sweptAt), token, other, now).valid
  {
  }

  // ---------------------------------------------------------------------------------------
  // Properties of the middleware

  /** GET requests and the health check pass without a look at the store. */
  lemma SafeRequestsPass(tokens: TokenMap, req: CsrfRequest, now: int)
    requires req.httpMethod == "GET" || req.path == "/api/health"
    ensures CsrfDecision(tokens, req, now) == Decision(PassThrough, tokens)
  {
  }

  /** Any other request needs a token: from the header when it is non-empty, else from the
      body; none gives 403 "CSRF token missing"; a failed check gives 403 "Invalid CSRF token". */
  lemma UnsafeRequestVerdicts(tokens: TokenMap, req: CsrfRequest, now: int)
    requires req.httpMethod != "GET" && req.path != "/api/health"
    ensures !Truthy(req.headerToken) && !Truthy(req.bodyToken) ==>
      CsrfDecision(tokens, req, now) == Decision(Forbidden("CSRF token missing"), tokens)
    ensures Truthy(req.headerToken) ==>
      var c := Validate(tokens, req.headerToken.value, req.sessionId, now);
      CsrfDecision(tokens, req, now) == Decision(if c.valid then PassThrough else Forbidden("Invalid CSRF token"), c.tokens)
    ensures !Truthy(req.headerToken) && Truthy(req.bodyToken) ==>
      var c := Validate(tokens, req.bodyToken.value, req.sessionId, now);
      CsrfDecision(tokens, req, now) == Decision(if c.valid then PassThrough else Forbidden("Invalid CSRF token"), c.tokens)
  {
  }

  /** Replaying a request whose token the middleware has just accepted is rejected. */
  lemma ReplayIsRejected(tokens: TokenMap, req: CsrfRequest, now: int, later: int)
    requires req.httpMethod != "GET" && req.path != "/api/health"
    requires CsrfDecision(tokens, req, now).verdict == PassThrough
    ensures CsrfDecision(CsrfDecision(tokens, req, now).tokens, req, later).verdict == Forbidden("Invalid CSRF token")
  {
  }
}
