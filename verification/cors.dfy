/** Cross-origin rules of the server: the `cors` origin callback applied to
    every route, and the header middleware in front of the static
    `/api/uploads` directory. */
module Cors {
  import opened JsValues
  import opened Text
  import opened Backend

  /* ---------- the pattern /^https?:\/\/localhost:\d+$/ ---------- */

  const Scheme := "http"
  const LocalPart := "://localhost:"
  const HttpLocal := Scheme + LocalPart
  const HttpsLocal := Scheme + "s" + LocalPart

  /** The four development front-end origins listed in both rules. */
  const DevOrigins: seq<string> := [
    HttpLocal + "5173",
    HttpLocal + "5174",
    HttpLocal + "5175",
    HttpLocal + "3000"
  ]

  /** `[...DevOrigins, process.env.FRONTEND_URL].filter(Boolean)`. */
  function AllowedOrigins(frontendUrl: Option<string>): (r: seq<string>)
    ensures forall o :: o in r <==> o in DevOrigins || (Truthy(frontendUrl) && o == frontendUrl.value)
  {
    DevOrigins + (if Truthy(frontendUrl) then [frontendUrl.value] else [])
  }

  /** One or more ASCII digits and nothing else (`\d+$`). */
  predicate IsPort(s: string)
  {
    |s| > 0 && AllDigits(s)
  }

  /** The pattern read the way a regular-expression engine runs it: the
      literal "http", an optional "s", the literal "://localhost:", then
      digits up to the end of the string. */
  predicate MatchesLocalhost(origin: string)
  {
    StartsWith(origin, Scheme)
    && var afterScheme := if |origin| > |Scheme| && origin[|Scheme|] == 's' then origin[|Scheme| + 1..]
                          else origin[|Scheme|..];
       StartsWith(afterScheme, LocalPart) && IsPort(afterScheme[|LocalPart|..])
  }

  /** The pattern accepts exactly "http://localhost:" or "https://localhost:"
      followed by a non-empty run of digits. */
  lemma MatchesLocalhostIff(origin: string)
    ensures MatchesLocalhost(origin) <==>
              (StartsWith(origin, HttpLocal) && IsPort(origin[|HttpLocal|..]))
              || (StartsWith(origin, HttpsLocal) && IsPort(origin[|HttpsLocal|..]))
  {
    PrefixJoin(origin, Scheme, LocalPart);
    PrefixJoin(origin, Scheme + "s", LocalPart);
    PrefixJoin(origin, Scheme, "s");
    if StartsWith(origin, Scheme) {
      var t := origin[|Scheme|..];
      OneCharPrefix(t, 's');
      if |t| > 0 && t[0] == 's' {
        assert origin[|Scheme + "s"|..] == t[1..];
        assert !StartsWith(t, LocalPart) by { assert LocalPart[0] == ':'; }
        if |origin| >= |HttpsLocal| {
          assert origin[|Scheme| + 1..][|LocalPart|..] == origin[|HttpsLocal|..];
        }
      } else {
        if |origin| >= |HttpLocal| {
          assert t[|LocalPart|..] == origin[|HttpLocal|..];
        }
      }
    }
  }

  /** A prefix made of two pieces is the first piece followed by the second. */
  lemma PrefixJoin(s: string, a: string, b: string)
    ensures StartsWith(s, a + b) <==> StartsWith(s, a) && StartsWith(s[|a|..], b)
  {
    if StartsWith(s, a) && StartsWith(s[|a|..], b) {
      assert s[..|a + b|] == s[..|a|] + s[|a|..][..|b|];
    }
    if StartsWith(s, a + b) {
      assert s[..|a|] == (a + b)[..|a|];
      assert s[|a|..][..|b|] == (a + b)[|a|..];
    }
  }

  lemma OneCharPrefix(t: string, c: char)
    ensures StartsWith(t, [c]) <==> |t| > 0 && t[0] == c
  {
    if |t| > 0 && t[0] == c {
      assert t[..1] == [c];
    }
  }

  /* ---------- the origin callback ---------- */

  datatype Decision = Allow | Reject

  /** The `origin` callback given to `cors` (backend/server.js:26-49). */
  function CheckOrigin(origin: Option<string>, frontendUrl: Option<string>): (d: Decision)
  {
    if !Truthy(origin) then Allow
    else if MatchesLocalhost(origin.value) then Allow
    else if origin.value in AllowedOrigins(frontendUrl) then Allow
    else Reject
  }

  /** Which origins pass: none at all, a localhost origin with an explicit
      port on either scheme, a development origin, or the configured
      front-end URL. */
  lemma CheckOriginSpec(origin: Option<string>, frontendUrl: Option<string>)
    ensures CheckOrigin(origin, frontendUrl) == Allow <==>
              || origin.None?
              || origin == Some("")
              || (origin.Some? && StartsWith(origin.value, HttpLocal) && IsPort(origin.value[|HttpLocal|..]))
              || (origin.Some? && StartsWith(origin.value, HttpsLocal) && IsPort(origin.value[|HttpsLocal|..]))
              || (origin.Some? && Truthy(frontendUrl) && origin.value == frontendUrl.value)
  {
    if origin.Some? {
      MatchesLocalhostIff(origin.value);
      if origin.value in DevOrigins {
        var o := origin.value;
        assert StartsWith(o, HttpLocal) && IsPort(o[|HttpLocal|..]) by {
          assert o[..17] == HttpLocal;
          assert o[17..] == "5173" || o[17..] == "5174" || o[17..] == "5175" || o[17..] == "3000";
        }
      }
    }
  }

  /** A rejected origin becomes an `Error` that the error-handling middleware
      answers with 500. */
  function CorsReply<T>(origin: Option<string>, frontendUrl: Option<string>): (r: Option<Reply<T>>)
    ensures r.None? <==> CheckOrigin(origin, frontendUrl) == Allow
    ensures r.Some? ==> r.value.status == 500 && r.value.message == Some(InternalErrorMessage)
  {
    if CheckOrigin(origin, frontendUrl) == Allow then None
    else Some(HandleError(PlainError("Not allowed by CORS")))
  }

  /** Any explicit port on localhost passes, on either scheme. */
  lemma LocalhostPortAllowed(port: string, frontendUrl: Option<string>)
    requires IsPort(port)
    ensures CheckOrigin(Some(HttpLocal + port), frontendUrl) == Allow
    ensures CheckOrigin(Some(HttpsLocal + port), frontendUrl) == Allow
  {
    MatchesLocalhostIff(HttpLocal + port);
    assert (HttpLocal + port)[..|HttpLocal|] == HttpLocal;
    assert (HttpLocal + port)[|HttpLocal|..] == port;
    MatchesLocalhostIff(HttpsLocal + port);
    assert (HttpsLocal + port)[..|HttpsLocal|] == HttpsLocal;
    assert (HttpsLocal + port)[|HttpsLocal|..] == port;
  }

  /** Without a port the pattern does not match, so bare "http://localhost"
      is rejected unless it is the configured front-end URL. */
  lemma BareLocalhostRejected(frontendUrl: Option<string>)
    requires frontendUrl != Some("http://localhost")
    ensures CheckOrigin(Some("http://localhost"), frontendUrl) == Reject
  {
    MatchesLocalhostIff("http://localhost");
  }

  /** A trailing path after the port defeats the `$` anchor. */
  lemma TrailingSlashRejected(frontendUrl: Option<string>)
    requires frontendUrl != Some("http://localhost:5173/")
    ensures CheckOrigin(Some("http://localhost:5173/"), frontendUrl) == Reject
  {
    var o := "http://localhost:5173/";
    MatchesLocalhostIff(o);
    assert o[17..] == "5173/";
    assert !IsDigit(o[17..][4]);
    assert o[..18] != HttpsLocal;
  }

  /* ---------- the /api/uploads header middleware ---------- */

  /** The response headers and the early answer of the `/api/uploads`
      middleware: `preflight` means it answered 200 with an empty body. */
  datatype UploadsHeaders = UploadsHeaders(
    allowOrigin: string,
    allowMethods: string,
    allowCredentials: string,
    resourcePolicy: string,
    preflight: bool)

  /** backend/server.js:603-633. */
  function UploadsMiddleware(origin: Option<string>, verb: string): (h: UploadsHeaders)
    ensures h.allowOrigin == "*" || h.allowOrigin in DevOrigins
    ensures origin.Some? && origin.value in DevOrigins ==> h.allowOrigin == origin.value
    ensures !(origin.Some? && origin.value in DevOrigins) ==> h.allowOrigin == "*"
    ensures h.preflight <==> verb == "OPTIONS"
    ensures h.allowMethods == "GET, HEAD, OPTIONS" && h.allowCredentials == "true"
  {
    var allow := if origin.Some? && origin.value in DevOrigins then origin.value else "*";
    UploadsHeaders(allow, "GET, HEAD, OPTIONS", "true", "cross-origin", verb == "OPTIONS")
  }

  /** The answer to a request under `/api/uploads/<filename>` against the set
      of stored file names. The global `cors` stage runs first: a rejected
      origin goes to the error handler, and an allowed OPTIONS request is
      answered by the `cors` package itself (its defaults end a preflight
      with 204), so the middleware's own 200 answer is never reached. After
      it come the file with a one-year cache directive (the static handler
      answers GET and HEAD only) or the JSON 404 of the catch-all route. */
  datatype StaticAnswer =
    | Refused(reply: Reply<()>)
    | CorsPreflight(status: nat)
    | File(headers: UploadsHeaders, filename: string, cacheControl: string)
    | NotFound(headers: UploadsHeaders, reply: Reply<()>)

  const CorsPreflightStatus: nat := 204
  const CacheForAYear := "public, max-age=31536000"

  function ServeUpload(stored: set<string>, filename: string, origin: Option<string>,
                       frontendUrl: Option<string>, verb: string): (a: StaticAnswer)
    ensures a.Refused? <==> CheckOrigin(origin, frontendUrl) == Reject
    ensures a.Refused? ==> a.reply.status == 500 && a.reply.message == Some(InternalErrorMessage)
    ensures a.CorsPreflight? <==> CheckOrigin(origin, frontendUrl) == Allow && verb == "OPTIONS"
    ensures a.CorsPreflight? ==> a.status == 204
    ensures a.File? <==> CheckOrigin(origin, frontendUrl) == Allow && (verb == "GET" || verb == "HEAD")
                          && filename in stored
    ensures a.File? ==> a.filename == filename && a.cacheControl == CacheForAYear
    ensures a.NotFound? ==> a.reply.status == 404 && a.reply.message == Some("API endpoint not found.")
    ensures a.File? || a.NotFound? ==> a.headers == UploadsMiddleware(origin, verb) && !a.headers.preflight
  {
    match CorsReply<()>(origin, frontendUrl)
    case Some(reply) => Refused(reply)
    case None =>
      if verb == "OPTIONS" then CorsPreflight(CorsPreflightStatus)
      else
        var h := UploadsMiddleware(origin, verb);
        if (verb == "GET" || verb == "HEAD") && filename in stored then File(h, filename, CacheForAYear)
        else NotFound(h, Fail(404, "API endpoint not found."))
  }

  /** An origin no rule admits. */
  const EvilOrigin := "https://evil.example"

  /** An origin outside the rules never gets a file: the request is answered
      500 before the uploads middleware runs, whatever the file or verb. */
  lemma ForeignOriginRefused(stored: set<string>, filename: string, frontendUrl: Option<string>, verb: string)
    requires frontendUrl != Some(EvilOrigin)
    ensures ServeUpload(stored, filename, Some(EvilOrigin), frontendUrl, verb)
            == Refused(Fail(500, InternalErrorMessage))
  {
    EvilOriginRejected(frontendUrl);
  }

  /** The foreign origin is rejected unless it is itself the front-end URL. */
  lemma EvilOriginRejected(frontendUrl: Option<string>)
    requires frontendUrl != Some(EvilOrigin)
    ensures CheckOrigin(Some(EvilOrigin), frontendUrl) == Reject
  {
    EvilOriginNotLocalhost();
    EvilOriginNotDev();
  }

  lemma EvilOriginNotLocalhost()
    ensures !MatchesLocalhost(EvilOrigin)
  {
    var o := EvilOrigin;
    MatchesLocalhostIff(o);
    assert o[..|HttpLocal|] != HttpLocal by { assert o[4] != HttpLocal[4]; }
    assert o[..|HttpsLocal|] != HttpsLocal by { assert o[8] != HttpsLocal[8]; }
  }

  lemma EvilOriginNotDev()
    ensures EvilOrigin !in DevOrigins
  {
    forall k | 0 <= k < |DevOrigins|
      ensures DevOrigins[k] != EvilOrigin
    {
      assert DevOrigins[k][4] == ':';
    }
  }

  /** The wildcard `*` reaches a served file only for a request the `cors`
      stage let through from outside the four development origins: one
      without an origin, another localhost port, or the configured front-end
      URL. A development origin is echoed back instead. */
  lemma WildcardOnlyForOtherAllowedOrigins(stored: set<string>, filename: string, origin: Option<string>,
                                           frontendUrl: Option<string>, verb: string)
    requires ServeUpload(stored, filename, origin, frontendUrl, verb).File?
    ensures var h := ServeUpload(stored, filename, origin, frontendUrl, verb).headers;
            (h.allowOrigin == "*" <==> !(origin.Some? && origin.value in DevOrigins))
            && (h.allowOrigin == "*" ==>
                  || origin.None?
                  || origin == Some("")
                  || (origin.Some? && StartsWith(origin.value, HttpLocal) && IsPort(origin.value[|HttpLocal|..]))
                  || (origin.Some? && StartsWith(origin.value, HttpsLocal) && IsPort(origin.value[|HttpsLocal|..]))
                  || (origin.Some? && Truthy(frontendUrl) && origin.value == frontendUrl.value))
  {
    CheckOriginSpec(origin, frontendUrl);
    assert "*" !in DevOrigins;
  }
}
