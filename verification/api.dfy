/**
 * The thin HTTP client `apiFetch`: it builds the request (URL, headers, body,
 * method) from the configured base URL, hands it to `fetch`, and turns the
 * settled response into a value or an error.
 *
 * `fetch` itself, `JSON.stringify`, `res.json()` and `res.text()` are not
 * modelled: the request handed to `fetch` is an output, the way `fetch`
 * settles is an input, and the response record carries what `res.json()`
 * and `res.text()` would resolve to (None when they would reject).
 */
module Api {
  import opened Wrappers
  import opened Text

  const BaseUrlNotSet := "NEXT_PUBLIC_API_BASE_URL is not set"
  const JsonMediaType := "application/json"
  const AuthorizationHeader := "Authorization"
  const ContentTypeHeader := "Content-Type"
  const FailurePrefix := "Request failed with status "

  /** A parsed JSON value; numbers are kept as their literal text. */
  datatype Json =
    | JNull
    | JBool(b: bool)
    | JNumber(literal: string)
    | JString(str: string)
    | JArray(items: seq<Json>)
    | JObject(fields: map<string, Json>)

  /** `ApiFetchOptions`; None stands for a property left undefined, and absent headers for `{}`. */
  datatype FetchOptions = FetchOptions(
    httpMethod: Option<string>,
    token: Option<string>,
    body: Option<Json>,
    headers: map<string, string>)

  /** The request handed to `fetch`; a body Some(v) is sent as `JSON.stringify(v)`. */
  datatype Request = Request(url: string, httpMethod: string, headers: map<string, string>, body: Option<Json>)

  /** A settled response: status, Content-Type header, and what reading the body as JSON or as text gives. */
  datatype HttpResponse = HttpResponse(status: nat, contentType: Option<string>, json: Option<Json>, text: Option<string>)

  /** How `fetch` settles: a response, or a rejection whose value is an Error with a message or something else (None). */
  datatype FetchOutcome = Responded(response: HttpResponse) | NetworkFailure(reason: Option<string>)

  /**
   * What `apiFetch` throws: an `Error` with a message, an `ApiError` (message,
   * HTTP status, parsed JSON details or undefined), or the rejection of
   * reading the body of a successful response, passed on unchanged.
   */
  datatype Thrown =
    | PlainError(message: string)
    | ApiError(message: string, status: nat, details: Option<Json>)
    | BodyReadFailure

  /** What a successful call resolves to. */
  datatype Payload = Undefined | JsonPayload(value: Json) | TextPayload(text: string)

  datatype ApiResult = Resolved(payload: Payload) | Rejected(error: Thrown)

  /** `Response.ok`. */
  predicate IsOk(status: int) {
    200 <= status <= 299
  }

  /** `(res.headers.get("content-type") ?? "").includes("application/json")`. */
  predicate IsJsonType(contentType: Option<string>): (b: bool)
    ensures b <==> exists i :: OccursAt(contentType.GetOr(""), JsonMediaType, i)
  {
    Contains(contentType.GetOr(""), JsonMediaType)
  }

  /** `opts.token` is truthy. */
  predicate HasToken(opts: FetchOptions) {
    opts.token.Some? && opts.token.value != ""
  }

  /** `baseURL.replace(/\/+$/, "")`: the longest prefix that does not end in '/', only slashes cut. */
  function StripTrailingSlashes(s: string): (r: string)
    ensures |r| <= |s| && r == s[..|r|]
    ensures r == [] || r[|r| - 1] != '/'
    ensures forall i :: |r| <= i < |s| ==> s[i] == '/'
  {
    if s != [] && s[|s| - 1] == '/' then StripTrailingSlashes(s[..|s| - 1]) else s
  }

  /** Stripping twice is stripping once. */
  lemma StripIdempotent(s: string)
    ensures StripTrailingSlashes(StripTrailingSlashes(s)) == StripTrailingSlashes(s)
  {
  }

  /** The slash-run at the end collapses, for example `http://x//` with `/children`. */
  lemma UrlExample()
    ensures StripTrailingSlashes("http://x//") + "/children" == "http://x/children"
  {
    assert StripTrailingSlashes("http://x/") == "http://x";
  }

  /**
   * The headers sent: every caller header, except that a truthy token sets
   * `Authorization: Bearer <token>` and a defined body sets
   * `Content-Type: application/json`, each overriding the caller's value.
   */
  ghost predicate HeadersFor(opts: FetchOptions, h: map<string, string>) {
    && (forall k :: k in h <==>
          k in opts.headers
          || (k == AuthorizationHeader && HasToken(opts))
          || (k == ContentTypeHeader && opts.body.Some?))
    && (HasToken(opts) ==> h[AuthorizationHeader] == "Bearer " + opts.token.value)
    && (opts.body.Some? ==> h[ContentTypeHeader] == JsonMediaType)
    && (forall k :: k in opts.headers
          && !(k == AuthorizationHeader && HasToken(opts))
          && !(k == ContentTypeHeader && opts.body.Some?)
          ==> h[k] == opts.headers[k])
  }

  /** The header rule leaves no choice: at most one header map satisfies it. */
  lemma HeadersForUnique(opts: FetchOptions, h1: map<string, string>, h2: map<string, string>)
    requires HeadersFor(opts, h1) && HeadersFor(opts, h2)
    ensures h1 == h2
  {
    assert h1.Keys == h2.Keys;
    forall k | k in h1 ensures h1[k] == h2[k] {
      if k == AuthorizationHeader && HasToken(opts) {
      } else if k == ContentTypeHeader && opts.body.Some? {
      } else {
        assert k in opts.headers;
      }
    }
  }

  /** `typeof details.<key> === "string"` on an object: the string, or None. */
  function StringField(v: Json, key: string): (r: Option<string>)
    ensures r.Some? <==> v.JObject? && key in v.fields && v.fields[key].JString?
    ensures r.Some? ==> r.value == v.fields[key].str
  {
    match v
    case JObject(fields) =>
      if key in fields && fields[key].JString? then Some(fields[key].str) else None
    case _ => None
  }

  /** The message used when the body supplies none. */
  function DefaultFailureMessage(status: nat): (m: string)
    ensures |m| > |FailurePrefix| && m[..|FailurePrefix|] == FailurePrefix
    ensures var digits := m[|FailurePrefix|..];
      && (forall c :: c in digits ==> IsDigit(c))
      && DigitsValue(digits) == status
      && (digits[0] == '0' ==> digits == "0")
  {
    var m := FailurePrefix + DecimalString(status);
    assert m[|FailurePrefix|..] == DecimalString(status);
    m
  }

  /**
   * The message of the error thrown for a failed response. For a JSON body: a
   * string `error` field, else a string `message` field, else the default
   * (also when the JSON does not parse). For any other body: the text when it
   * is non-empty, else the default (also when it cannot be read).
   */
  function FailureMessage(res: HttpResponse): string {
    if IsJsonType(res.contentType) then
      if res.json.Some? && StringField(res.json.value, "error").Some? then
        StringField(res.json.value, "error").value
      else if res.json.Some? && StringField(res.json.value, "message").Some? then
        StringField(res.json.value, "message").value
      else
        DefaultFailureMessage(res.status)
    else if res.text.Some? && res.text.value != "" then
      res.text.value
    else
      DefaultFailureMessage(res.status)
  }

  /** The successful-response rule: 204 gives undefined, a JSON type the parsed body, anything else the text. */
  predicate Delivers(res: HttpResponse, result: ApiResult) {
    if res.status == 204 then result == Resolved(Undefined)
    else if IsJsonType(res.contentType) then
      result == if res.json.Some? then Resolved(JsonPayload(res.json.value)) else Rejected(BodyReadFailure)
    else
      result == if res.text.Some? then Resolved(TextPayload(res.text.value)) else Rejected(BodyReadFailure)
  }

  /**
   * `apiFetch(path, opts)` against base URL `baseUrl`, where `fetch` settles
   * as `outcome`. `sent` is the request handed to `fetch`, None when none is.
   */
  method ApiFetch(baseUrl: Option<string>, path: string, opts: FetchOptions, outcome: FetchOutcome)
    returns (sent: Option<Request>, result: ApiResult)
    ensures sent.None? <==> baseUrl.None? || baseUrl.value == ""
    ensures sent.None? ==> result == Rejected(PlainError(BaseUrlNotSet))
    ensures sent.Some? ==> sent.value.url == StripTrailingSlashes(baseUrl.value) + path
    ensures sent.Some? ==> sent.value.httpMethod == opts.httpMethod.GetOr("GET")
    ensures sent.Some? ==> HeadersFor(opts, sent.value.headers) && sent.value.body == opts.body
    ensures sent.Some? && outcome.NetworkFailure? ==>
      result == Rejected(PlainError("Network error while requesting " + path + ": " + outcome.reason.GetOr("Unknown error")))
    ensures sent.Some? && outcome.Responded? && !IsOk(outcome.response.status) ==>
      && result.Rejected? && result.error.ApiError?
      && result.error.status == outcome.response.status
      && result.error.details == (if IsJsonType(outcome.response.contentType) then outcome.response.json else None)
      && result.error.message == FailureMessage(outcome.response)
    ensures sent.Some? && outcome.Responded? && IsOk(outcome.response.status) ==> Delivers(outcome.response, result)
  {
    if baseUrl.None? || baseUrl.value == "" {
      return None, Rejected(PlainError(BaseUrlNotSet));
    }

    var url := StripTrailingSlashes(baseUrl.value) + path;
    var headers := opts.headers;
    if HasToken(opts) {
      headers := headers[AuthorizationHeader := "Bearer " + opts.token.value];
    }

    var body: Option<Json> := None;
    if opts.body.Some? {
      headers := headers[ContentTypeHeader := JsonMediaType];
      body := opts.body;
    }

    sent := Some(Request(url, opts.httpMethod.GetOr("GET"), headers, body));

    if outcome.NetworkFailure? {
      var message := outcome.reason.GetOr("Unknown error");
      return sent, Rejected(PlainError("Network error while requesting " + path + ": " + message));
    }

    var res := outcome.response;
    if !IsOk(res.status) {
      var details: Option<Json> := None;
      var message := DefaultFailureMessage(res.status);
      var contentType := res.contentType.GetOr("");
      if Contains(contentType, JsonMediaType) {
        if res.json.Some? {
          details := res.json;
          var error := StringField(details.value, "error");
          var alternative := StringField(details.value, "message");
          if error.Some? {
            message := error.value;
          } else if alternative.Some? {
            message := alternative.value;
          }
        }
      } else if res.text.Some? {
        var text := res.text.value;
        if text != "" {
          message := text;
        }
      }
      return sent, Rejected(ApiError(message, res.status, details));
    }

    if res.status == 204 {
      return sent, Resolved(Undefined);
    }

    var responseType := res.contentType.GetOr("");
    if Contains(responseType, JsonMediaType) {
      result := if res.json.Some? then Resolved(JsonPayload(res.json.value)) else Rejected(BodyReadFailure);
    } else {
      result := if res.text.Some? then Resolved(TextPayload(res.text.value)) else Rejected(BodyReadFailure);
    }
  }

  /**
   * A JSON `error` field wins even when it is empty, whereas an empty text body
   * leaves the default in place.
   */
  lemma EmptyErrorFieldIsKept(status: nat)
    ensures FailureMessage(
      HttpResponse(status, Some(JsonMediaType), Some(JObject(map["error" := JString(""), "message" := JString("m")])), None))
      == ""
    ensures FailureMessage(HttpResponse(status, Some("text/plain"), None, Some(""))) == DefaultFailureMessage(status)
  {
    assert Contains(JsonMediaType, JsonMediaType) by { assert OccursAt(JsonMediaType, JsonMediaType, 0); }
    assert !Contains("text/plain", JsonMediaType);
  }

  /** The default message spells the status in decimal, for example 404. */
  lemma DefaultMessageExample()
    ensures DefaultFailureMessage(404) == "Request failed with status 404"
  {
  }
}
