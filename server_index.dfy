/**
 * The server's own middleware: the CORS headers and the OPTIONS
 * short-circuit, the request log with its 80-character lines, the error
 * handler's status and message, and the session settings.
 */
module ServerIndex {
  import opened JsValues
  import opened JsText

  /** The origins the CORS middleware echoes back, as the middleware tests
      them: five exact origins and two prefixes. */
  predicate AllowedOrigin(origin: JsValue) {
    || StrictEquals(origin, Str("http://localhost:4000"))
    || StrictEquals(origin, Str("http://localhost:5173"))
    || StrictEquals(origin, Str("http://localhost:5174"))
    || StrictEquals(origin, Str("http://72.60.37.178:4000"))
    || StrictEquals(origin, Str("http://72.60.37.178"))
    || (origin.Str? && StartsWith(origin.s, "http://localhost:"))
    || (origin.Str? && StartsWith(origin.s, "http://72.60.37.178:"))
  }

  /** The three listed ports are covered by the prefixes: an origin is
      echoed exactly when it is the bare VPS address or starts with the
      localhost or VPS prefix. */
  lemma AllowedOriginPrefixes(origin: JsValue)
    ensures AllowedOrigin(origin) <==>
      origin.Str? &&
      (origin.s == "http://72.60.37.178" || StartsWith(origin.s, "http://localhost:") || StartsWith(origin.s, "http://72.60.37.178:"))
  {
    if origin.Str? {
      var s := origin.s;
      if s == "http://localhost:4000" || s == "http://localhost:5173" || s == "http://localhost:5174" {
        assert s[..17] == "http://localhost:";
      } else if s == "http://72.60.37.178:4000" {
        assert s[..20] == "http://72.60.37.178:";
      }
    }
  }

  const AllowCredentials := "true"
  const AllowMethods := "GET, POST, PUT, DELETE, OPTIONS"
  const AllowHeaders := "Origin, X-Requested-With, Content-Type, Accept, Authorization"

  /** The part of an Express response the middleware touch. */
  class ServerResponse {
    var headers: map<string, string>
    var statusCode: int
    var body: Option<string>

    constructor ()
      ensures headers == map[] && statusCode == 200 && body == None
    {
      headers := map[];
      statusCode := 200;
      body := None;
    }

    /** `res.header(name, value)` */
    method Header(name: string, value: string)
      modifies this
      ensures headers == old(headers)[name := value]
      ensures statusCode == old(statusCode) && body == old(body)
    {
      headers := headers[name := value];
    }

    /** `res.sendStatus(200)`: status 200 with its reason phrase as body. */
    method SendOk()
      modifies this
      ensures statusCode == 200 && body == Some("OK")
      ensures headers == old(headers)
    {
      statusCode := 200;
      body := Some("OK");
    }
  }

  /** The CORS middleware. It sets the credentials, methods and headers
      headers on every response, echoes an allowed origin, and answers an
      OPTIONS request itself; every other request goes on to `next`. */
  method Cors(requestMethod: string, origin: JsValue, res: ServerResponse) returns (callsNext: bool)
    modifies res
    ensures callsNext <==> requestMethod != "OPTIONS"
    ensures res.headers ==
      (if AllowedOrigin(origin) then old(res.headers)["Access-Control-Allow-Origin" := origin.s] else old(res.headers))
        ["Access-Control-Allow-Credentials" := AllowCredentials]
        ["Access-Control-Allow-Methods" := AllowMethods]
        ["Access-Control-Allow-Headers" := AllowHeaders]
    ensures !callsNext ==> res.statusCode == 200 && res.body == Some("OK")
    ensures callsNext ==> res.statusCode == old(res.statusCode) && res.body == old(res.body)
  {
    if AllowedOrigin(origin) {
      res.Header("Access-Control-Allow-Origin", origin.s);
    }
    res.Header("Access-Control-Allow-Credentials", AllowCredentials);
    res.Header("Access-Control-Allow-Methods", AllowMethods);
    res.Header("Access-Control-Allow-Headers", AllowHeaders);
    if requestMethod == "OPTIONS" {
      res.SendOk();
      callsNext := false;
    } else {
      callsNext := true;
    }
  }

  /** Whatever the origin, the credentials, methods and headers headers are
      set, and the origin header is set exactly to an allowed origin. */
  lemma CorsHeaders(headers: map<string, string>, origin: JsValue)
    ensures var h :=
      (if AllowedOrigin(origin) then headers["Access-Control-Allow-Origin" := origin.s] else headers)
        ["Access-Control-Allow-Credentials" := AllowCredentials]
        ["Access-Control-Allow-Methods" := AllowMethods]
        ["Access-Control-Allow-Headers" := AllowHeaders];
      && h["Access-Control-Allow-Credentials"] == "true"
      && h["Access-Control-Allow-Methods"] == AllowMethods
      && h["Access-Control-Allow-Headers"] == AllowHeaders
      && (AllowedOrigin(origin) ==> h["Access-Control-Allow-Origin"] == origin.s)
      && (!AllowedOrigin(origin) ==>
            ("Access-Control-Allow-Origin" in h <==> "Access-Control-Allow-Origin" in headers))
  {
  }

  /** Only API paths are logged. */
  predicate ShouldLog(path: string) {
    StartsWith(path, "/api")
  }

  /** A log line cut to 80 characters: a longer line keeps its first 79 and
      ends in an ellipsis. */
  function Truncate(line: string): (r: string)
    ensures |line| <= 80 ==> r == line
    ensures |line| > 80 ==> |r| == 80 && r[..79] == line[..79] && r[79] == '…'
    ensures |r| <= 80
  {
    if |line| > 80 then line[..79] + "…" else line
  }

  /** Truncating twice is truncating once. */
  lemma TruncateIdempotent(line: string)
    ensures Truncate(Truncate(line)) == Truncate(line)
  {
  }

  /** The line logged when an API response finishes: method, path, status
      and duration, then the captured JSON body when there is one (its
      serialisation is given), cut to 80 characters. */
  function LogLine(requestMethod: string, path: string, statusCode: nat, duration: nat,
                   captured: JsValue, serialised: string): (line: string)
    ensures |line| <= 80
    ensures var head := requestMethod + " " + path + " " + NatToString(statusCode) + " in " + NatToString(duration) + "ms";
      var full := if Truthy(captured) then head + " :: " + serialised else head;
      && (|full| <= 80 ==> line == full)
      && (|full| > 80 ==> line == full[..79] + "…")
  {
    var head := requestMethod + " " + path + " " + NatToString(statusCode) + " in " + NatToString(duration) + "ms";
    Truncate(if Truthy(captured) then head + " :: " + serialised else head)
  }

  /** The logging middleware's state for one request: the body last passed
      to `res.json`, and the lines written to the log. */
  class RequestLog {
    var captured: JsValue
    var lines: seq<string>

    constructor ()
      ensures captured == Undefined && lines == []
    {
      captured := Undefined;
      lines := [];
    }

    /** The wrapped `res.json(body)`: remembers the body. */
    method Json(body: JsValue)
      modifies this
      ensures captured == body && lines == old(lines)
    {
      captured := body;
    }

    /** The `finish` handler: writes one line for an API path, none
        otherwise. */
    method Finish(requestMethod: string, path: string, statusCode: nat, duration: nat, serialised: string)
      modifies this
      ensures ShouldLog(path) ==>
        lines == old(lines) + [LogLine(requestMethod, path, statusCode, duration, captured, serialised)]
      ensures !ShouldLog(path) ==> lines == old(lines)
      ensures captured == old(captured)
      ensures forall i :: |old(lines)| <= i < |lines| ==> |lines[i]| <= 80
    {
      if ShouldLog(path) {
        lines := lines + [LogLine(requestMethod, path, statusCode, duration, captured, serialised)];
      }
    }
  }

  /** `err.status || err.statusCode || 500` */
  function ErrorStatus(status: JsValue, statusCode: JsValue): (r: JsValue)
    ensures Truthy(r)
    ensures Truthy(status) ==> r == status
    ensures !Truthy(status) && Truthy(statusCode) ==> r == statusCode
    ensures !Truthy(status) && !Truthy(statusCode) ==> r == Num(500.0)
  {
    if Truthy(status) then status else if Truthy(statusCode) then statusCode else Num(500.0)
  }

  /** `err.message || "Internal Server Error"` */
  function ErrorMessage(message: JsValue): (r: JsValue)
    ensures Truthy(r)
    ensures r == message || r == Str("Internal Server Error")
    ensures Truthy(message) <==> r == message
  {
    if Truthy(message) then message else Str("Internal Server Error")
  }

  /** The session store prunes every 24 hours, in milliseconds. */
  const CheckPeriod: nat := 86400000

  /** The session cookie lives 24 hours, in milliseconds. */
  const CookieMaxAge: nat := 24 * 60 * 60 * 1000

  /** A session outlives its cookie by at most one prune period: the two
      intervals are the same 24 hours. */
  lemma SessionTimesAgree()
    ensures CookieMaxAge == CheckPeriod == 86400000
  {
  }

  /** `process.env.SESSION_SECRET || 'temp-secret-key'` */
  function SessionSecret(env: JsValue): (r: JsValue)
    ensures Truthy(r)
    ensures Truthy(env) ==> r == env
    ensures !Truthy(env) ==> r == Str("temp-secret-key")
  {
    if Truthy(env) then env else Str("temp-secret-key")
  }
}
