# jwtAuth: a Dafny model of the JWT bearer-token middleware

The repository's one core function, `jwtAuth` in `src/middlewares/jwt.middleware.js`, is an
Express middleware. It guards every route placed behind it. It reads the request's
`authorization` header and takes a token from it: the text after an exact-case `"Bearer "`
when the header starts with that prefix, otherwise the whole header, trimmed in both cases.
It then picks the signing secret (`JWT_SECRET`, or the literal `replace-with-env-secret` when
that variable is unset or empty) and calls `jwt.verify`. When the header is missing or empty, or
verification fails, it answers `401` with body `Unauthorized`. Otherwise it copies the payload's `userID`
onto the request and calls `next()`.

The model has three modules:

- `Wrappers` (`wrappers.dfy`): `Option`, where `None` stands for JavaScript's `undefined`.
- `JsString` (`js_string.dfy`): the string built-ins the middleware uses. `IsWhitespace` is the
  set of characters `String.prototype.trim` removes (ECMAScript WhiteSpace and LineTerminator).
  The module also has `StartsWith` and `Trim`, and `Trim` is characterised by the lemma `TrimUnique`.
- `JwtMiddleware` (`jwt_middleware.dfy`): the pure parts are functions. `ResolveSecret` is the
  `||` fallback, `ExtractToken` is the prefix strip and trim, and `Authenticate` is the
  whole decision as a `Verdict`. The gate itself is the method `JwtAuth`. It works on a
  `Request` object (read-only headers, a mutable `userID`), a `Response` object (status code and
  body written by `status()`/`send()`) and a `Next` object that counts calls to `next()`. It
  returns an `Outcome`, either `Reject(401, "Unauthorized")` or `Continue`.

`jwt.verify` is a parameter of type `Verifier = (string, string) -> Option<Payload>`. It gives
`Some(payload)` where the library returns and `None` where it throws. The environment value
`process.env.JWT_SECRET` is the parameter `env: Option<string>`.

Behaviour of the code that the model makes explicit:

- The code does no schema check: a verified payload without `userID` is forwarded with
  `req.userID` undefined (`MissingClaimScenario`).
- `||` also falls back when `JWT_SECRET` is set to the empty string (`ResolveSecret`).
- Putting `"Bearer "` in front of a token changes nothing only for a non-empty token that does
  not itself start with `"Bearer "` (`GatePrefixInsensitive`). For a token that does, the prefix is
  stripped only once (`PrefixStrippedOnce`). For the empty token, the header `"Bearer "` is
  non-empty and reaches the verifier while the empty header is denied (`BareBearerReachesVerifier`).
- Header names are matched case-insensitively because Node.js lower-cases them before the
  middleware sees them. The model's header map is keyed by the lower-case name.

## Model

| member | source | states |
|---|---|---|
| `JsString.IsWhitespace` | src/middlewares/jwt.middleware.js:9-10 | the characters `trim` removes; every one lies in the Basic Multilingual Plane, and among ASCII characters they are exactly tab, line feed, vertical tab, form feed, carriage return and space |
| `JsString.StartsWith` | src/middlewares/jwt.middleware.js:8 | `startsWith` holds exactly when the prefix is no longer than the string and agrees with it character by character |
| `JsString.LeadingWhitespace` | src/middlewares/jwt.middleware.js:9-10 | the count of leading characters `trim` removes: all of them are whitespace, and the next one is not |
| `JsString.TrailingWhitespace` | src/middlewares/jwt.middleware.js:9-10 | the count of trailing characters `trim` removes: all of them are whitespace, and the one before them is not |
| `JsString.Trim` | src/middlewares/jwt.middleware.js:9-10 | the result neither starts nor ends with whitespace, and it is the infix of the input that starts after the leading whitespace and is followed only by whitespace |
| `JsString.TrimUnique` | src/middlewares/jwt.middleware.js:9-10 | every split of a string into whitespace, a core without whitespace at its ends, and whitespace has `Trim` return that core |
| `JsString.TrimIdempotent` | src/middlewares/jwt.middleware.js:9-10 | trimming an already trimmed string changes nothing |
| `JsString.TrimIgnoresPadding` | src/middlewares/jwt.middleware.js:9-10 | whitespace added before or after a string does not change what `trim` returns |
| `JwtMiddleware.ResolveSecret` | src/middlewares/jwt.middleware.js:13 | the secret is `JWT_SECRET` when it is set and non-empty, otherwise exactly `replace-with-env-secret`; it is never empty |
| `JwtMiddleware.ExtractToken` | src/middlewares/jwt.middleware.js:7-10 | the token never has leading or trailing whitespace and is no longer than the header; with the exact 7-character `"Bearer "` prefix it is the trimmed rest of the header, without it the trimmed whole header |
| `JwtMiddleware.PrefixEquivalence` | src/middlewares/jwt.middleware.js:7-10 | for any `t` not starting with `"Bearer "`, the headers `"Bearer " + t` and `t` yield the same token, `trim(t)` |
| `JwtMiddleware.PrefixStrippedOnce` | src/middlewares/jwt.middleware.js:8-9 | `"Bearer Bearer x"` yields `"Bearer x"` while `"Bearer x"` yields something else, so prefix equivalence needs its precondition |
| `JwtMiddleware.LowerCaseSchemeIsBareToken` | src/middlewares/jwt.middleware.js:8-10 | the prefix test is case-sensitive: `"bearer x"` is taken whole as the token |
| `JwtMiddleware.LeadingSpaceKeepsScheme` | src/middlewares/jwt.middleware.js:8-10 | a header `" Bearer x"` misses the prefix test, and trimming leaves the token `"Bearer x"` |
| `JwtMiddleware.BearerTok` | src/middlewares/jwt.middleware.js:8-9 | the header `"Bearer tok"` yields the token `"tok"` |
| `JwtMiddleware.MissingCredential` | src/middlewares/jwt.middleware.js:4-5 | `!authHeader`: a credential is present exactly when the `authorization` header exists and is non-empty |
| `JwtMiddleware.Authenticate` | src/middlewares/jwt.middleware.js:4-19 | a missing or empty header is denied whatever the verifier would say; a request is accepted exactly when the header is present and the verifier accepts the extracted token under the resolved secret, and then the verdict carries the verifier's payload unchanged |
| `JwtMiddleware.OutcomeOf` | src/middlewares/jwt.middleware.js:5-21 | an accepted verdict continues and every other verdict is `Reject(401, "Unauthorized")` |
| `JwtMiddleware.GatePrefixInsensitive` | src/middlewares/jwt.middleware.js:7-14 | for a non-empty `t` not starting with `"Bearer "`, the headers `"Bearer " + t` and `t` get the same verdict and the same payload |
| `JwtMiddleware.BareBearerReachesVerifier` | src/middlewares/jwt.middleware.js:5-15 | the header `"Bearer "` passes the `!authHeader` test and is accepted whenever the verifier accepts the empty token, while the empty header is denied |
| `JwtMiddleware.VerdictDependsOnlyOnToken` | src/middlewares/jwt.middleware.js:8-14 | two present headers that yield the same token get the same verdict |
| `JwtMiddleware.Response.Status` | src/middlewares/jwt.middleware.js:5 | `res.status(code)` sets the status code and leaves the body as it was |
| `JwtMiddleware.Response.Send` | src/middlewares/jwt.middleware.js:18 | `send(text)` writes the body and leaves the status code as it was |
| `JwtMiddleware.Next.Call` | src/middlewares/jwt.middleware.js:21 | `next()` adds exactly one to the number of calls |
| `JwtMiddleware.JwtAuth` | src/middlewares/jwt.middleware.js:3-22 | every call ends in exactly one of reject or continue, as `Authenticate` decides. On reject, status 401 and body `Unauthorized` are written, `req.userID` is unchanged and `next` is not called. On continue, `req.userID` is the payload's `userID` (possibly undefined), `next` is called exactly once and nothing is written |
| `JwtMiddleware.ValidBearerScenario` | src/middlewares/jwt.middleware.js:3-22 | with header `"Bearer tok"`, no `JWT_SECRET` and a verifier that accepts `tok` under the fallback secret as user `u123`, the request continues with `userID == "u123"`, `next` is called once and no body is sent |
| `JwtMiddleware.MissingClaimScenario` | src/middlewares/jwt.middleware.js:14-21 | a verified payload without `userID` is still forwarded: `req.userID` becomes undefined and `next` is called once |

## Left out

- The internals of `jwt.verify` (signature algorithms, base64url decoding, `exp` and other
  claim checks). It is a foreign library, so verification is the `Verifier` parameter. Each
  call to `JwtAuth` gets its own verifier, so a token that expires between two requests is covered.
- `console.log(err)` on a failed verification: logging output that has no effect on the outcome.
- Reading `process.env`: the value of `JWT_SECRET` is the `env` parameter, read on every call
  as the code does.
- Express details beyond status and body: the Content-Type and other headers `send` sets, the
  value `jwtAuth` returns, and whether later middleware runs at all. These are framework I/O.
  `next` is represented by a call counter.
- JavaScript strings are UTF-16 code units and Dafny strings here are Unicode scalar values.
  Every character `trim` removes lies in the Basic Multilingual Plane, so the two agree on trimming.
- Header values other than strings, and `userID` claims other than strings: the model's
  `userID` is a string or undefined. It also assumes that `jwt.verify` returns an object when it
  succeeds, so reading `payload.userID` cannot throw.
- Concurrency across requests: the framework's concern. The function shares no mutable state.
