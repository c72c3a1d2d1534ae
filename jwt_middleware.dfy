/**
 * The `jwtAuth` Express middleware: it reads the `authorization` header, extracts a
 * token from it, verifies the token against the configured secret and either answers
 * 401 "Unauthorized" or records the payload's `userID` on the request and calls `next`.
 *
 * `jwt.verify` is not modelled: the gate takes it as a parameter, a total function from
 * (token, secret) to the decoded payload, or None where the library would throw.
 */
module JwtMiddleware {
  import opened Wrappers
  import opened JsString

  /** The decoded payload of a verified token; only its `userID` claim is read, and it may be absent. */
  datatype Payload = Payload(userID: Option<string>)

  /** `jwt.verify(token, secret)`: Some(payload) when it returns, None when it throws. */
  type Verifier = (string, string) -> Option<Payload>

  /** What the middleware does with a request: answer it with an error, or pass it on. */
  datatype Outcome = Reject(status: int, body: string) | Continue

  /** The pure decision: no credential accepted, or the payload the verifier returned. */
  datatype Verdict = Denied | Accepted(payload: Payload)

  const BearerPrefix: string := "Bearer "
  const FallbackSecret: string := "replace-with-env-secret"
  const Unauthorized: Outcome := Reject(401, "Unauthorized")

  /** Header names as Node.js delivers them, in lower case. */
  const AuthorizationName: string := "authorization"

  /** `process.env.JWT_SECRET || 'replace-with-env-secret'`: an unset or empty variable is falsy. */
  function ResolveSecret(env: Option<string>): (secret: string)
    ensures secret != ""
    ensures env.Some? && env.value != "" ==> secret == env.value
    ensures env.None? || env.value == "" ==> secret == FallbackSecret
  {
    if env.Some? && env.value != "" then env.value else FallbackSecret
  }

  /** The token in a non-empty `authorization` header: after an exact-case "Bearer " if there is one, trimmed. */
  function ExtractToken(header: string): (token: string)
    ensures token == [] || (!IsWhitespace(token[0]) && !IsWhitespace(token[|token| - 1]))
    ensures StartsWith(header, BearerPrefix) ==> token == Trim(header[|BearerPrefix|..])
    ensures !StartsWith(header, BearerPrefix) ==> token == Trim(header)
    ensures |token| <= |header|
  {
    if StartsWith(header, BearerPrefix) then Trim(header[|BearerPrefix|..]) else Trim(header)
  }

  /** True when the request carries no `authorization` header, or an empty one (`!authHeader`). */
  predicate MissingCredential(headers: map<string, string>)
    ensures !MissingCredential(headers) <==> AuthorizationName in headers && |headers[AuthorizationName]| > 0
  {
    AuthorizationName !in headers || headers[AuthorizationName] == ""
  }

  /** What jwtAuth decides for a request with these headers, environment secret and verifier. */
  function Authenticate(headers: map<string, string>, env: Option<string>, verify: Verifier): (v: Verdict)
    ensures MissingCredential(headers) ==> v == Denied
    ensures v.Accepted? <==>
      !MissingCredential(headers) &&
      verify(ExtractToken(headers[AuthorizationName]), ResolveSecret(env)).Some?
    ensures v.Accepted? ==>
      verify(ExtractToken(headers[AuthorizationName]), ResolveSecret(env)) == Some(v.payload)
  {
    if MissingCredential(headers) then Denied
    else
      match verify(ExtractToken(headers[AuthorizationName]), ResolveSecret(env))
      case None => Denied
      case Some(p) => Accepted(p)
  }

  /** The response a verdict leads to. */
  function OutcomeOf(v: Verdict): (o: Outcome)
    ensures o == Continue <==> v.Accepted?
    ensures o != Continue ==> o == Unauthorized
  {
    if v.Accepted? then Continue else Unauthorized
  }

  /** "Bearer " in front of a token that does not itself start with "Bearer " changes nothing. */
  lemma PrefixEquivalence(t: string)
    requires !StartsWith(t, BearerPrefix)
    ensures ExtractToken(BearerPrefix + t) == ExtractToken(t) == Trim(t)
  {
  }

  /** The prefix is stripped once only, which is why PrefixEquivalence needs its precondition. */
  lemma PrefixStrippedOnce()
    ensures ExtractToken("Bearer Bearer x") == "Bearer x" != ExtractToken("Bearer x")
  {
    var h := "Bearer Bearer x";
    assert h[..|BearerPrefix|] == BearerPrefix;
    assert h[|BearerPrefix|..] == "Bearer x";
    TrimUnique("Bearer x", 0, 8);
    var g := "Bearer x";
    assert g[..|BearerPrefix|] == BearerPrefix;
    assert g[|BearerPrefix|..] == "x";
    TrimUnique("x", 0, 1);
  }

  /** The prefix is case-sensitive: "bearer x" is taken as a bare token whole. */
  lemma LowerCaseSchemeIsBareToken()
    ensures ExtractToken("bearer x") == "bearer x"
  {
    var h := "bearer x";
    assert h[..|BearerPrefix|] != BearerPrefix by { assert h[0] != BearerPrefix[0]; }
    TrimUnique(h, 0, 8);
  }

  /** A space before "Bearer " hides the prefix, and trimming then leaves the scheme in the token. */
  lemma LeadingSpaceKeepsScheme()
    ensures ExtractToken(" Bearer x") == "Bearer x"
  {
    var h := " Bearer x";
    assert h[..|BearerPrefix|] != BearerPrefix by { assert h[0] != BearerPrefix[0]; }
    TrimUnique(h, 1, 9);
  }

  /**
   * The gate accepts "Bearer " + t exactly when it accepts the bare t, with the same payload,
   * for every non-empty t that does not itself start with "Bearer ".
   */
  lemma GatePrefixInsensitive(headers: map<string, string>, t: string, env: Option<string>, verify: Verifier)
    requires t != "" && !StartsWith(t, BearerPrefix)
    ensures Authenticate(headers[AuthorizationName := BearerPrefix + t], env, verify)
         == Authenticate(headers[AuthorizationName := t], env, verify)
  {
  }

  /**
   * A header of just "Bearer " is present, so it reaches the verifier with the empty token,
   * while an empty header is denied without consulting it.
   */
  lemma BareBearerReachesVerifier(env: Option<string>, verify: Verifier)
    requires verify("", ResolveSecret(env)).Some?
    ensures Authenticate(map[AuthorizationName := BearerPrefix], env, verify).Accepted?
    ensures Authenticate(map[AuthorizationName := ""], env, verify) == Denied
  {
    var h := BearerPrefix;
    assert h[..|BearerPrefix|] == BearerPrefix;
    assert h[|BearerPrefix|..] == "";
  }

  /** Two requests whose headers yield the same token get the same verdict: the verdict depends on nothing else. */
  lemma VerdictDependsOnlyOnToken(h1: map<string, string>, h2: map<string, string>, env: Option<string>, verify: Verifier)
    requires !MissingCredential(h1) && !MissingCredential(h2)
    requires ExtractToken(h1[AuthorizationName]) == ExtractToken(h2[AuthorizationName])
    ensures Authenticate(h1, env, verify) == Authenticate(h2, env, verify)
  {
  }

  /** A request: its headers, read only, and the `userID` field the gate sets (None: undefined). */
  class Request {
    const headers: map<string, string>
    var userID: Option<string>

    constructor (headers: map<string, string>, userID: Option<string>)
      ensures this.headers == headers && this.userID == userID
    {
      this.headers := headers;
      this.userID := userID;
    }
  }

  /** A response: the status code set with `status(...)` and the body written with `send(...)`. */
  class Response {
    var statusCode: int
    var body: Option<string>

    /** A fresh response: Express's default status 200, nothing sent. */
    constructor ()
      ensures statusCode == 200 && body == None
    {
      statusCode := 200;
      body := None;
    }

    /** `res.status(code)` */
    method Status(code: int)
      modifies this
      ensures statusCode == code && body == old(body)
    {
      statusCode := code;
    }

    /** `res.send(text)` */
    method Send(text: string)
      modifies this
      ensures body == Some(text) && statusCode == old(statusCode)
    {
      body := Some(text);
    }
  }

  /** The `next` callback, counting how often it has been called. */
  class Next {
    var calls: nat

    constructor ()
      ensures calls == 0
    {
      calls := 0;
    }

    method Call()
      modifies this
      ensures calls == old(calls) + 1
    {
      calls := calls + 1;
    }
  }

  /**
   * `jwtAuth(req, res, next)` with `process.env.JWT_SECRET` as env and `jwt.verify` as verify.
   * Exactly one of two things happens: a 401 "Unauthorized" is sent and neither req nor next
   * is touched, or req.userID is set from the verified payload, next is called once, and
   * nothing is sent.
   */
  method JwtAuth(req: Request, res: Response, next: Next, env: Option<string>, verify: Verifier)
    returns (o: Outcome)
    modifies req, res, next
    ensures o == OutcomeOf(Authenticate(req.headers, env, verify))
    ensures o == Unauthorized || o == Continue
    ensures o == Unauthorized ==>
      && req.userID == old(req.userID)
      && next.calls == old(next.calls)
      && res.statusCode == 401 && res.body == Some("Unauthorized")
    ensures o == Continue ==>
      && req.userID == Authenticate(req.headers, env, verify).payload.userID
      && next.calls == old(next.calls) + 1
      && res.statusCode == old(res.statusCode) && res.body == old(res.body)
  {
    var authHeader := if AuthorizationName in req.headers then Some(req.headers[AuthorizationName]) else None;
    if authHeader.None? || authHeader.value == "" {
      res.Status(401);
      res.Send("Unauthorized");
      return Unauthorized;
    }
    var token := ExtractToken(authHeader.value);
    var secret := ResolveSecret(env);
    var payload := verify(token, secret);
    if payload.None? {
      res.Status(401);
      res.Send("Unauthorized");
      return Unauthorized;
    }
    req.userID := payload.value.userID;
    next.Call();
    o := Continue;
  }

  /** The token in the header "Bearer tok" is "tok". */
  lemma BearerTok()
    ensures ExtractToken("Bearer tok") == "tok"
  {
    var h := "Bearer tok";
    assert h[..|BearerPrefix|] == BearerPrefix;
    assert h[|BearerPrefix|..] == "tok";
    TrimUnique("tok", 0, 3);
  }

  /**
   * A request with "Bearer tok" for a verifier that accepts "tok" under the fallback secret
   * as user "u123": downstream runs once and sees userID "u123", and nothing is sent.
   */
  method ValidBearerScenario() returns (o: Outcome, userID: Option<string>, calls: nat, sent: Option<string>)
    ensures o == Continue && userID == Some("u123") && calls == 1 && sent == None
  {
    var verify: Verifier := (token, secret) =>
      if token == "tok" && secret == FallbackSecret then Some(Payload(Some("u123"))) else None;
    var headers := map[AuthorizationName := "Bearer tok"];
    BearerTok();
    assert !MissingCredential(headers) && headers[AuthorizationName] == "Bearer tok";
    assert verify(ExtractToken(headers[AuthorizationName]), ResolveSecret(None)) == Some(Payload(Some("u123")));
    var req := new Request(headers, None);
    var res := new Response();
    var next := new Next();
    o := JwtAuth(req, res, next, None, verify);
    userID, calls, sent := req.userID, next.calls, res.body;
  }

  /**
   * A verified payload without a userID claim is still passed on: the request reaches
   * downstream with userID undefined.
   */
  method MissingClaimScenario(token: string, env: Option<string>) returns (o: Outcome, userID: Option<string>, calls: nat)
    requires token != ""
    ensures o == Continue && userID == None && calls == 1
  {
    var verify: Verifier := (t, s) => Some(Payload(None));
    var req := new Request(map[AuthorizationName := token], Some("earlier"));
    var res := new Response();
    var next := new Next();
    o := JwtAuth(req, res, next, env, verify);
    userID, calls := req.userID, next.calls;
  }
}
