/**
 * The API client: base-URL normalisation, URL building, default request headers,
 * response-body parsing, the error raised for a non-OK status, and how `api.get`
 * and `api.post` shape the request. The network call itself is an input.
 */
module Api {
  import opened Wrappers
  import opened JsStrings

  const DefaultBaseUrl := "http://localhost:5000"
  /** The browser-storage key of the bearer token (shared with the auth store). */
  const AuthTokenKey := "mensHealthToken"

  /** A JSON-like JavaScript value. Numbers are integers in this model. */
  datatype JsValue =
    | JNull
    | JBool(b: bool)
    | JNumber(n: int)
    | JString(s: string)
    | JArray(elements: seq<JsValue>)
    | JObject(fields: map<string, JsValue>)

  /** JavaScript truthiness of a value. */
  predicate Truthy(v: JsValue) {
    match v
    case JNull => false
    case JBool(b) => b
    case JNumber(n) => n != 0
    case JString(s) => s != ""
    case _ => true
  }

  /** A present, non-empty string: what `x || fallback` and `if (x)` accept. */
  predicate Given(x: Option<string>) {
    x.Some? && x.value != ""
  }

  /** The configured base URL, or the default when it is unset or empty. */
  function ConfiguredBase(configured: Option<string>): (r: string)
    ensures r != ""
    ensures Given(configured) ==> r == configured.value
  {
    if Given(configured) then configured.value else DefaultBaseUrl
  }

  /** `API_BASE_URL`: the configured base with at most one trailing slash removed. */
  function ApiBaseUrl(configured: Option<string>): (r: string)
    ensures var raw := ConfiguredBase(configured);
      && (EndsWith(raw, "/") ==> r + "/" == raw)
      && (!EndsWith(raw, "/") ==> r == raw)
  {
    var raw := ConfiguredBase(configured);
    if raw != [] && raw[|raw| - 1] == '/' then
      assert raw == raw[..|raw| - 1] + "/";
      raw[..|raw| - 1]
    else raw
  }

  /** Without configuration the base is the local development server. */
  lemma DefaultBase()
    ensures ApiBaseUrl(None) == DefaultBaseUrl
    ensures ApiBaseUrl(Some("")) == DefaultBaseUrl
  {
    assert DefaultBaseUrl[|DefaultBaseUrl| - 1] == '0';
  }

  /** `buildUrl(path)`: the part after the base always starts with a slash. */
  function BuildUrl(base: string, path: string): (r: string)
    ensures |r| > |base| && r[..|base|] == base && r[|base|] == '/'
    ensures StartsWith(path, "/") ==> r == base + path
    ensures !StartsWith(path, "/") ==> r == base + "/" + path
  {
    if StartsWith(path, "/") then
      assert path[0] == '/';
      base + path
    else base + "/" + path
  }

  /** The path is recoverable from the built URL: a rooted path follows the base directly. */
  lemma BuildUrlKeepsPath(base: string, path: string)
    ensures var r := BuildUrl(base, path);
      (if StartsWith(path, "/") then r[|base|..] else r[|base| + 1..]) == path
    ensures BuildUrl(base, "/" + path) == BuildUrl(base, path) || StartsWith(path, "/")
  {
    var r := BuildUrl(base, path);
    if StartsWith(path, "/") {
      assert r[|base|..] == path;
    } else {
      assert r[|base| + 1..] == path;
      assert StartsWith("/" + path, "/");
    }
  }

  // ---------------------------------------------------------------------------------
  // Headers

  /** `headers.append(name, value)` on a header list keyed by lower-cased name. */
  function Appended(m: map<string, string>, name: string, value: string): (r: map<string, string>)
    ensures r.Keys == m.Keys + {Lower(name)}
    ensures forall k :: k in m && k != Lower(name) ==> r[k] == m[k]
    ensures Lower(name) !in m ==> r[Lower(name)] == value
    ensures Lower(name) in m ==> r[Lower(name)] == m[Lower(name)] + ", " + value
  {
    var key := Lower(name);
    m[key := if key in m then m[key] + ", " + value else value]
  }

  /** The header list `new Headers(init)` builds from name/value pairs. */
  function Filled(init: seq<(string, string)>): (r: map<string, string>)
    ensures r == map[] <==> init == []
  {
    if init == [] then map[]
    else Appended(Filled(init[..|init| - 1]), init[|init| - 1].0, init[|init| - 1].1)
  }

  /** Every supplied header name is present, under its lower-cased spelling. */
  lemma {:induction false} FilledNames(init: seq<(string, string)>)
    ensures forall k :: 0 <= k < |init| ==> Lower(init[k].0) in Filled(init)
    ensures forall key :: key in Filled(init) ==> exists k :: 0 <= k < |init| && Lower(init[k].0) == key
  {
    if init != [] {
      var front := init[..|init| - 1];
      FilledNames(front);
      assert forall k :: 0 <= k < |front| ==> front[k] == init[k];
    }
  }

  /** A fetch `Headers` object: names compare case-insensitively (ASCII). */
  class Headers {
    var entries: map<string, string>

    constructor (init: seq<(string, string)>)
      ensures entries == Filled(init)
    {
      var filled := map[];
      var i := 0;
      while i < |init|
        invariant 0 <= i <= |init|
        invariant filled == Filled(init[..i])
      {
        assert init[..i + 1][..i] == init[..i];
        filled := Appended(filled, init[i].0, init[i].1);
        i := i + 1;
      }
      assert init[..|init|] == init;
      entries := filled;
    }

    function Has(name: string): bool
      reads this
    {
      Lower(name) in entries
    }

    method Set(name: string, value: string)
      modifies this
      ensures entries == old(entries)[Lower(name) := value]
    {
      entries := entries[Lower(name) := value];
    }
  }

  /** A request body as `fetch` receives it; `JsonText(v)` is `JSON.stringify(v)`. */
  datatype RequestBody = NoBody | FormBody(fields: seq<(string, string)>) | JsonText(value: JsValue) | TextBody(text: string)

  datatype RequestInit = RequestInit(verb: Option<string>, headers: seq<(string, string)>, body: RequestBody)

  /** What is handed to `fetch`. */
  datatype Request = Request(url: string, verb: Option<string>, headers: map<string, string>, body: RequestBody)

  /** The header list `apiFetch` sends: the supplied one plus the two defaults it may add. */
  function WithDefaultHeaders(supplied: map<string, string>, body: RequestBody, token: Option<string>): (r: map<string, string>)
    ensures forall k :: k in supplied ==> k in r && r[k] == supplied[k]
    ensures forall k :: k in r && k !in supplied ==> k == "content-type" || k == "authorization"
    ensures ("content-type" in r && "content-type" !in supplied)
            <==> (!body.NoBody? && !body.FormBody? && "content-type" !in supplied)
    ensures "content-type" in r && "content-type" !in supplied ==> r["content-type"] == "application/json"
    ensures ("authorization" in r && "authorization" !in supplied) <==> (Given(token) && "authorization" !in supplied)
    ensures "authorization" in r && "authorization" !in supplied ==> r["authorization"] == "Bearer " + token.value
  {
    var typed := if !body.NoBody? && !body.FormBody? && "content-type" !in supplied
                 then supplied["content-type" := "application/json"] else supplied;
    if Given(token) && "authorization" !in typed then typed["authorization" := "Bearer " + token.value] else typed
  }

  lemma HeaderNames()
    ensures Lower("Content-Type") == "content-type"
    ensures Lower("Authorization") == "authorization"
  {
    var c := Lower("Content-Type");
    assert forall i :: 0 <= i < 12 ==> c[i] == "content-type"[i];
    var a := Lower("Authorization");
    assert forall i :: 0 <= i < 13 ==> a[i] == "authorization"[i];
  }

  // ---------------------------------------------------------------------------------
  // Responses and errors

  /** A response: status, `content-type` header, what `response.json()` yields or throws, and the text. */
  datatype Response = Response(status: nat, contentType: Option<string>, json: Result<JsValue, string>, text: string)

  datatype ApiError = ApiError(message: string, status: nat, data: JsValue)

  /** What an awaited call can throw: an `ApiError`, another `Error` with its message, or a non-`Error` value. */
  datatype Thrown = ApiThrown(error: ApiError) | ErrorThrown(message: string) | ValueThrown

  /** `err instanceof Error ? err.message : fallback` */
  function MessageOf(err: Thrown, fallback: string): (m: string)
    ensures err.ApiThrown? ==> m == err.error.message
    ensures err.ErrorThrown? ==> m == err.message
    ensures err.ValueThrown? ==> m == fallback
  {
    match err
    case ApiThrown(e) => e.message
    case ErrorThrown(msg) => msg
    case ValueThrown => fallback
  }

  predicate IsOk(status: nat) {
    200 <= status <= 299
  }

  predicate HasJsonType(r: Response) {
    Contains(r.contentType.GetOr(""), "application/json")
  }

  /** The parsed body: JSON for a JSON content type, the text unless the status is 204, else null. */
  function ResponseData(r: Response): (d: Result<JsValue, Thrown>)
    ensures HasJsonType(r) && r.json.Success? ==> d == Success(r.json.value)
    ensures HasJsonType(r) && r.json.Failure? ==> d == Failure(ErrorThrown(r.json.error))
    ensures !HasJsonType(r) && r.status != 204 ==> d == Success(JString(r.text))
    ensures !HasJsonType(r) && r.status == 204 ==> d == Success(JNull)
  {
    if HasJsonType(r) then
      match r.json
      case Success(v) => Success(v)
      case Failure(msg) => Failure(ErrorThrown(msg))
    else if r.status != 204 then Success(JString(r.text))
    else Success(JNull)
  }

  /** The body's `message` when it is an object whose `message` is a string. */
  function BodyMessage(data: JsValue): (r: Option<string>)
    ensures r.Some? ==> data.JObject? && "message" in data.fields && data.fields["message"] == JString(r.value)
    ensures data.JObject? && "message" in data.fields && data.fields["message"].JString? ==> r.Some?
  {
    if data.JObject? && "message" in data.fields && data.fields["message"].JString?
    then Some(data.fields["message"].s) else None
  }

  const StatusPrefix := "Request failed with status "

  /** The message of the `ApiError` raised for a non-OK status. */
  function ErrorMessage(status: nat, data: JsValue): (m: string)
    ensures BodyMessage(data).Some? ==> m == BodyMessage(data).value
    ensures BodyMessage(data).None? ==>
      && |m| > |StatusPrefix| && m[..|StatusPrefix|] == StatusPrefix
      && AllDigits(m[|StatusPrefix|..]) && DecimalValue(m[|StatusPrefix|..]) == status
  {
    match BodyMessage(data)
    case Some(msg) => msg
    case None =>
      var m := StatusPrefix + Decimal(status);
      assert m[|StatusPrefix|..] == Decimal(status);
      DecimalRoundTrip(status);
      m
  }

  /** The outcome of `apiFetch` once `fetch` has produced a response. */
  function Interpret(r: Response): (out: Result<JsValue, Thrown>)
    ensures ResponseData(r).Failure? ==> out == ResponseData(r)
    ensures ResponseData(r).Success? && IsOk(r.status) ==> out == ResponseData(r)
    ensures ResponseData(r).Success? && !IsOk(r.status) ==>
      var data := ResponseData(r).value;
      out == Failure(ApiThrown(ApiError(ErrorMessage(r.status, data), r.status, data)))
  {
    match ResponseData(r)
    case Failure(e) => Failure(e)
    case Success(data) =>
      if IsOk(r.status) then Success(data)
      else Failure(ApiThrown(ApiError(ErrorMessage(r.status, data), r.status, data)))
  }

  /** Only a non-OK status produces an `ApiError`, and it carries that status. */
  lemma ApiErrorOnlyForFailedStatus(r: Response)
    ensures Interpret(r).Failure? && Interpret(r).error.ApiThrown? <==>
              ResponseData(r).Success? && !IsOk(r.status)
    ensures Interpret(r).Failure? && Interpret(r).error.ApiThrown? ==>
              Interpret(r).error.error.status == r.status
              && Interpret(r).error.error.data == ResponseData(r).value
  {
  }

  /**
   * `apiFetch(path, init)`: builds the URL and headers, then interprets what `fetch`
   * produced (`outcome`, whose failure is the message of the rejection). `token` is
   * what `getAuthToken` read from storage.
   */
  method ApiFetch(base: string, path: string, init: RequestInit, token: Option<string>,
                  outcome: Result<Response, string>)
    returns (request: Request, result: Result<JsValue, Thrown>)
    ensures request == Request(BuildUrl(base, path), init.verb,
                               WithDefaultHeaders(Filled(init.headers), init.body, token), init.body)
    ensures outcome.Failure? ==> result == Failure(ErrorThrown(outcome.error))
    ensures outcome.Success? ==> result == Interpret(outcome.value)
  {
    var headers := new Headers(init.headers);
    var hasBody := !init.body.NoBody?;
    var isFormData := init.body.FormBody?;
    HeaderNames();
    if hasBody && !isFormData && !headers.Has("Content-Type") {
      headers.Set("Content-Type", "application/json");
    }
    if Given(token) && !headers.Has("Authorization") {
      headers.Set("Authorization", "Bearer " + token.value);
    }
    request := Request(BuildUrl(base, path), init.verb, headers.entries, init.body);
    match outcome
    case Failure(msg) =>
      result := Failure(ErrorThrown(msg));
    case Success(response) =>
      result := Interpret(response);
  }

  // ---------------------------------------------------------------------------------
  // api.get and api.post

  /** The `body` argument of `api.post`. */
  datatype PostArg = Undefined | FormArg(fields: seq<(string, string)>) | ValueArg(value: JsValue)

  /** `body instanceof FormData ? body : body ? JSON.stringify(body) : undefined` */
  function PostBody(body: PostArg): (r: RequestBody)
    ensures body.FormArg? ==> r == FormBody(body.fields)
    ensures body.ValueArg? && Truthy(body.value) ==> r == JsonText(body.value)
    ensures body.Undefined? || (body.ValueArg? && !Truthy(body.value)) ==> r == NoBody
  {
    match body
    case FormArg(f) => FormBody(f)
    case ValueArg(v) => if Truthy(v) then JsonText(v) else NoBody
    case Undefined => NoBody
  }

  /** `api.get(path, init)` passes `{...init, method: "GET"}` (`verb` is the `method` field). */
  function GetInit(init: RequestInit): (r: RequestInit)
    ensures r.verb == Some("GET") && r.headers == init.headers && r.body == init.body
  {
    init.(verb := Some("GET"))
  }

  /** `api.post(path, body, init)` passes `{...init, method: "POST", body: ...}`. */
  function PostInit(body: PostArg, init: RequestInit): (r: RequestInit)
    ensures r.verb == Some("POST") && r.headers == init.headers && r.body == PostBody(body)
  {
    init.(verb := Some("POST"), body := PostBody(body))
  }

  /**
   * What `api.post` sends for each kind of body: a JSON value gets the JSON content type
   * unless the caller supplied one; a form or a falsy body never gets one added.
   */
  lemma PostContentType(body: PostArg, init: RequestInit, token: Option<string>)
    ensures var supplied := Filled(init.headers);
      var sent := WithDefaultHeaders(supplied, PostInit(body, init).body, token);
      && ("content-type" !in supplied && body.ValueArg? && Truthy(body.value) ==>
            sent["content-type"] == "application/json")
      && ("content-type" !in supplied && !(body.ValueArg? && Truthy(body.value)) ==>
            "content-type" !in sent)
      && ("content-type" in supplied ==> sent["content-type"] == supplied["content-type"])
  {
  }
}
