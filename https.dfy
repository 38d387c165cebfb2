/** The HTTPS helpers (`httpsConfig`): whether certificates are present, the TLS options, the
    HTTP-to-HTTPS redirect and the Let's Encrypt challenge responder. File existence and file
    reads are oracles passed in. */
module Https {
  import opened Wrappers
  import opened Strings
  import opened Environment

  const DefaultCertPath := "/etc/letsencrypt/live/paitrucking.com/fullchain.pem"
  const DefaultKeyPath := "/etc/letsencrypt/live/paitrucking.com/privkey.pem"

  /** `SSL_CERT_PATH || <default>`. */
  function CertPath(env: Env): (p: string)
    ensures Truthy(env.sslCertPath) ==> p == env.sslCertPath.value
    ensures !Truthy(env.sslCertPath) ==> p == DefaultCertPath
  {
    OrElse(env.sslCertPath, DefaultCertPath)
  }

  /** `SSL_KEY_PATH || <default>`. */
  function KeyPath(env: Env): (p: string)
    ensures Truthy(env.sslKeyPath) ==> p == env.sslKeyPath.value
    ensures !Truthy(env.sslKeyPath) ==> p == DefaultKeyPath
  {
    OrElse(env.sslKeyPath, DefaultKeyPath)
  }

  /** `hasSSLCertificates`: both files exist (`fileExists` is `fs.existsSync`). */
  function HasSslCertificates(env: Env, fileExists: string -> bool): (r: bool)
    ensures r <==> fileExists(CertPath(env)) && fileExists(KeyPath(env))
  {
    fileExists(CertPath(env)) && fileExists(KeyPath(env))
  }

  /** With neither variable set, the check looks at the Let's Encrypt default files. */
  lemma DefaultCertificates(env: Env, fileExists: string -> bool)
    requires !Truthy(env.sslCertPath) && !Truthy(env.sslKeyPath)
    ensures HasSslCertificates(env, fileExists) <==> fileExists(DefaultCertPath) && fileExists(DefaultKeyPath)
  {
  }

  const Ciphers: seq<string> := [
    "ECDHE-RSA-AES128-GCM-SHA256", "ECDHE-ECDSA-AES128-GCM-SHA256",
    "ECDHE-RSA-AES256-GCM-SHA384", "ECDHE-ECDSA-AES256-GCM-SHA384",
    "DHE-RSA-AES128-GCM-SHA256", "ECDHE-RSA-AES128-SHA256", "DHE-RSA-AES128-SHA256",
    "ECDHE-RSA-AES256-SHA384", "DHE-RSA-AES256-SHA384", "ECDHE-RSA-AES256-SHA256",
    "DHE-RSA-AES256-SHA256", "HIGH", "!aNULL", "!eNULL", "!EXPORT", "!DES", "!RC4", "!MD5",
    "!PSK", "!SRP", "!CAMELLIA"]

  /** The options object `getSSLConfig` builds (the `secureOptions` bit mask is not modelled). */
  datatype TlsConfig = TlsConfig(cert: string, key: string, ciphers: string, honorCipherOrder: bool)

  /** `getSSLConfig`: both files are read (`read` is `fs.readFileSync`, `None` when it throws);
      a failed read gives `null`. */
  function GetSslConfig(env: Env, read: string -> Option<string>): (r: Option<TlsConfig>)
    ensures r.Some? <==> read(CertPath(env)).Some? && read(KeyPath(env)).Some?
    ensures r.Some? ==> r.value.cert == read(CertPath(env)).value
    ensures r.Some? ==> r.value.key == read(KeyPath(env)).value
    ensures r.Some? ==> Split(r.value.ciphers, ':') == Ciphers && r.value.honorCipherOrder
  {
    match read(CertPath(env))
    case None => None
    case Some(cert) =>
      match read(KeyPath(env))
      case None => None
      case Some(key) =>
        CipherStringSplits();
        Some(TlsConfig(cert, key, Join(Ciphers, ":"), true))
  }

  /** No cipher name holds the separator. */
  lemma CiphersHaveNoColon()
    ensures forall i :: 0 <= i < |Ciphers| ==> ':' !in Ciphers[i]
  {
    LeadingSuitesHaveNoColon();
    TrailingSuitesHaveNoColon();
    ExclusionsHaveNoColon();
  }

  /** The six suites with ECDHE or DHE key exchange listed first. */
  lemma LeadingSuitesHaveNoColon()
    ensures forall i :: 0 <= i < 6 ==> ':' !in Ciphers[i]
  {
    assert ':' !in Ciphers[0];
    assert ':' !in Ciphers[1];
    assert ':' !in Ciphers[2];
    assert ':' !in Ciphers[3];
    assert ':' !in Ciphers[4];
    assert ':' !in Ciphers[5];
  }

  /** The remaining five named suites. */
  lemma TrailingSuitesHaveNoColon()
    ensures forall i :: 6 <= i < 11 ==> ':' !in Ciphers[i]
  {
    assert ':' !in Ciphers[6];
    assert ':' !in Ciphers[7];
    assert ':' !in Ciphers[8];
    assert ':' !in Ciphers[9];
    assert ':' !in Ciphers[10];
  }

  /** `HIGH` and the excluded families. */
  lemma ExclusionsHaveNoColon()
    ensures forall i :: 11 <= i < 21 ==> ':' !in Ciphers[i]
  {
    assert ':' !in Ciphers[11];
    assert ':' !in Ciphers[12];
    assert ':' !in Ciphers[13];
    assert ':' !in Ciphers[14];
    assert ':' !in Ciphers[15];
    assert ':' !in Ciphers[16];
    assert ':' !in Ciphers[17];
    assert ':' !in Ciphers[18];
    assert ':' !in Ciphers[19];
    assert ':' !in Ciphers[20];
  }

  /** The colon-joined cipher string lists exactly the ciphers, in order. */
  lemma CipherStringSplits()
    ensures Split(Join(Ciphers, ":"), ':') == Ciphers
  {
    CiphersHaveNoColon();
    SplitJoin(Ciphers, ':');
  }

  // ---------------------------------------------------------------------------------------
  // Middlewares

  /** The parts of an Express request the middlewares read; a missing header is `None`. */
  datatype Request = Request(
    secure: bool, forwardedProto: Option<string>, host: Option<string>, url: string, path: string)

  /** What a middleware does: answer with a redirect or a file, or call `next()`. */
  datatype Outcome = Redirect(status: nat, location: string) | SendFile(file: string) | Next

  /** `redirectToHTTPS`: in production, a request that is neither secure nor forwarded as https
      is sent a 301 to the same host and URL over https; every other request passes on. */
  function RedirectToHttps(env: Env, req: Request): (r: Outcome)
    ensures r.Redirect? <==> IsProduction(env) && !req.secure && req.forwardedProto != Some("https")
    ensures !r.Redirect? ==> r == Next
    ensures r.Redirect? ==> r.status == 301
    ensures r.Redirect? ==> r.location == "https://" + Interpolated(req.host) + req.url
  {
    if IsProduction(env) && !req.secure && req.forwardedProto != Some("https") then
      Redirect(301, "https://" + Interpolated(req.host) + req.url)
    else Next
  }

  /** The redirect target keeps the URL (path and query) and a request that comes back through
      a TLS-terminating proxy is not redirected again. */
  lemma RedirectOnce(env: Env, req: Request)
    requires RedirectToHttps(env, req).Redirect?
    ensures StartsWith(RedirectToHttps(env, req).location, "https://")
    ensures EndsWith(RedirectToHttps(env, req).location, req.url)
    ensures RedirectToHttps(env, req.(forwardedProto := Some("https"))) == Next
    ensures RedirectToHttps(env, req.(secure := true)) == Next
  {
    var loc := RedirectToHttps(env, req).location;
    assert loc == "https://" + (Interpolated(req.host) + req.url);
    assert loc[|loc| - |req.url|..] == req.url;
  }

  /** Outside production nothing is ever redirected. */
  lemma NoRedirectOutsideProduction(env: Env, req: Request)
    requires !IsProduction(env)
    ensures RedirectToHttps(env, req) == Next
  {
  }

  const AcmePrefix := "/.well-known/acme-challenge/"

  /** `req.path.split('/').pop()`. */
  function ChallengeToken(path: string): (t: string)
    ensures '/' !in t
  {
    var parts := Split(path, '/');
    parts[|parts| - 1]
  }

  /** The challenge token is the part of the path after its last slash. */
  lemma ChallengeTokenIsLastSegment(path: string)
    ensures ChallengeToken(path) == AfterLast(path, '/')
  {
    SplitLastIsAfterLast(path, '/');
  }

  /** A challenge path ending in a plain token yields that token. */
  lemma ChallengeTokenOfAcmePath(t: string)
    requires '/' !in t
    ensures StartsWith(AcmePrefix + t, AcmePrefix)
    ensures ChallengeToken(AcmePrefix + t) == t
  {
    var path := AcmePrefix + t;
    assert path[..|AcmePrefix|] == AcmePrefix;
    ChallengeTokenIsLastSegment(path);
    assert path == "/.well-known/acme-challenge" + ['/'] + t;
    AfterLastOfConcat("/.well-known/acme-challenge", '/', t);
  }

  /** The challenge directory under the project root (`path.join(__dirname,
      '../../.well-known/acme-challenge')`, with `__dirname` the root's `server/config`). */
  function ChallengeDir(root: string): string {
    root + "/.well-known/acme-challenge"
  }

  /** `path.join(<challenge directory>, token)` for a token without a slash: an empty token and
      "." name the directory itself, ".." its parent, anything else a file inside it. */
  function ChallengeFile(root: string, token: string): (f: string)
    requires '/' !in token
    ensures token != "" && token != "." && token != ".." ==> f == ChallengeDir(root) + "/" + token
  {
    if token == "" || token == "." then ChallengeDir(root)
    else if token == ".." then root + "/.well-known"
    else ChallengeDir(root) + "/" + token
  }

  /** Whatever the token, the file that may be sent lies under the root's `.well-known`. */
  lemma ChallengeFileConfined(root: string, token: string)
    requires '/' !in token
    ensures StartsWith(ChallengeFile(root, token), root + "/.well-known")
  {
    var base := root + "/.well-known";
    var f := ChallengeFile(root, token);
    assert f == base + f[|base|..];
  }

  /** `letsEncryptVerification`: a path under the challenge prefix whose challenge file exists is
      answered with that file; every other request passes on. */
  function LetsEncryptVerification(root: string, req: Request, fileExists: string -> bool): (r: Outcome)
    ensures r.SendFile? <==>
      StartsWith(req.path, AcmePrefix) && fileExists(ChallengeFile(root, ChallengeToken(req.path)))
    ensures r.SendFile? ==> r.file == ChallengeFile(root, ChallengeToken(req.path))
    ensures !r.SendFile? ==> r == Next
  {
    if StartsWith(req.path, AcmePrefix) then
      var file := ChallengeFile(root, ChallengeToken(req.path));
      if fileExists(file) then SendFile(file) else Next
    else Next
  }

  /** A file sent for an ordinary token is that token's file in the challenge directory. */
  lemma ChallengeResponse(root: string, t: string, req: Request, fileExists: string -> bool)
    requires '/' !in t && t != "" && t != "." && t != ".."
    requires req.path == AcmePrefix + t
    ensures LetsEncryptVerification(root, req, fileExists).SendFile? <==>
      fileExists(ChallengeDir(root) + "/" + t)
    ensures LetsEncryptVerification(root, req, fileExists).SendFile? ==>
      LetsEncryptVerification(root, req, fileExists).file == ChallengeDir(root) + "/" + t
  {
    ChallengeTokenOfAcmePath(t);
  }
}
