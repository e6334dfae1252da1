/** The web client's request layer (client/web/src/lib/api/http.ts): header merge,
    the decision between "return the envelope", "synthesize a success envelope" and
    "raise ApiError", and the `http` code check. The network call itself is a
    parameter: the model receives what `fetch` answered. */
module HttpClient {
  import opened Wrappers
  import Text

  /** A JSON code field as the client sees it: a JSON number, or some other JSON value
      together with what `Number(...)` makes of it (None when that is NaN). */
  datatype JsCode = JsNum(n: int) | JsOther(asNumber: Option<int>)

  /** A JSON message field as the client sees it: a JSON string, or some other JSON
      value (null, a number, a boolean, an object) kept by whether it is truthy and by
      the text `String(...)` makes of it. */
  datatype JsText = JsStr(s: string) | JsNonString(truthy: bool, text: string)

  /** JavaScript truthiness of a message field: a string is truthy unless empty. */
  predicate Truthy(m: JsText) {
    match m
    case JsStr(s) => s != ""
    case JsNonString(t, _) => t
  }

  /** The string the `Error` constructor stores for a message value. */
  function AsString(m: JsText): string {
    match m
    case JsStr(s) => s
    case JsNonString(_, t) => t
  }

  /** `m || fallback` handed to the `Error` constructor. */
  function MessageOr(m: JsText, fallback: string): string {
    if Truthy(m) then AsString(m) else fallback
  }

  /** A parsed body. `RString` is a body read as text (content type not JSON) or a JSON
      string; `RObject` is a JSON object, recording whether it has `code`, `message`
      and `data` properties; `ROther` is any other JSON value (null, a number, a
      boolean, an array), kept by its JSON text. */
  datatype Raw =
    | RString(s: string)
    | RObject(code: Option<JsCode>, message: Option<JsText>, data: Option<Raw>)
    | ROther(json: string)

  /** What `fetch` gave back: `res.ok`, `res.status`, whether the content type names
      JSON, and the body. For a JSON content type `body` is None when the body does not
      parse (the source then falls back to an empty object). */
  datatype FetchResult = FetchResult(ok: bool, status: int, isJson: bool, text: string, body: Option<Raw>)

  /** `{ code, message, data? }`. */
  datatype Envelope = Envelope(code: JsCode, message: JsText, data: Option<Raw>)

  /** `new ApiError(message, code, status)`. The `code` property holds whatever value
      the caller passed, which for `http` is the envelope's code unconverted. */
  datatype ApiError = ApiError(name: string, message: string, code: JsCode, status: int)

  /** The ApiError constructor keeps what it is given and names the error "ApiError". */
  function NewApiError(message: string, code: JsCode, status: int): (e: ApiError)
    ensures e.name == "ApiError" && e.message == message && e.code == code && e.status == status
  {
    ApiError("ApiError", message, code, status)
  }

  /** The caller's `init`: whether it has a `headers` property and what it holds. */
  datatype RequestInit = RequestInit(headers: Option<map<string, string>>)

  /** Headers of the outgoing request. The merged object (JSON content type, then the
      bearer token when one is stored and non-empty, then the caller's headers) is put
      under `headers`, but `...init` is spread after it, so a caller-supplied
      `init.headers` replaces the merged object as a whole. */
  function OutgoingHeaders(token: Option<string>, init: Option<RequestInit>): map<string, string>
  {
    var base := map["Content-Type" := "application/json"];
    var withAuth := if token.Some? && token.value != "" then base["Authorization" := "Bearer " + token.value] else base;
    match init
    case Some(RequestInit(Some(h))) => h
    case _ => withAuth
  }

  /** With a stored token and no caller headers, exactly the two default headers are sent. */
  lemma HeadersWithToken(token: string, init: Option<RequestInit>)
    requires token != ""
    requires init.None? || init.value.headers.None?
    ensures OutgoingHeaders(Some(token), init) ==
      map["Content-Type" := "application/json", "Authorization" := "Bearer " + token]
  {
  }

  /** Without a token, only the JSON content type is sent. */
  lemma HeadersWithoutToken(token: Option<string>, init: Option<RequestInit>)
    requires token.None? || token.value == ""
    requires init.None? || init.value.headers.None?
    ensures OutgoingHeaders(token, init) == map["Content-Type" := "application/json"]
    ensures "Authorization" !in OutgoingHeaders(token, init)
  {
  }

  /** Caller headers discard the defaults, the bearer token included. */
  lemma CallerHeadersReplaceAll(token: Option<string>, h: map<string, string>)
    ensures OutgoingHeaders(token, Some(RequestInit(Some(h)))) == h
    ensures "Authorization" !in h ==> "Authorization" !in OutgoingHeaders(token, Some(RequestInit(Some(h))))
  {
  }

  /** The value `raw` the source works with after reading the body. */
  function RawOf(res: FetchResult): Raw {
    if !res.isJson then RString(res.text)
    else res.body.GetOr(RObject(None, None, None))
  }

  /** `isJson && raw && typeof raw === "object" && "code" in raw && "message" in raw`. */
  predicate IsEnvelope(res: FetchResult) {
    res.isJson && RawOf(res).RObject? && RawOf(res).code.Some? && RawOf(res).message.Some?
  }

  function FailedText(status: int): string {
    "Request failed: " + Text.IntToString(status)
  }

  /** `Number(r.code) || res.status`: the numeric value unless it is 0 or NaN. */
  function CodeOr(c: JsCode, status: int): int {
    match c
    case JsNum(n) => if n != 0 then n else status
    case JsOther(Some(n)) => if n != 0 then n else status
    case JsOther(None) => status
  }

  /** `request(path, init)` after the network call: the envelope to return, or the
      ApiError to raise. */
  function Request(res: FetchResult): (r: Result<Envelope, ApiError>)
    // failure responses always raise, and keep the HTTP status
    ensures !res.ok <==> r.Err?
    ensures r.Err? ==> r.error.status == res.status && r.error.name == "ApiError"
    // an envelope-shaped failure body surfaces its message and code
    ensures !res.ok && IsEnvelope(res) ==>
      var m := RawOf(res).message.value;
      r.error.message == (if Truthy(m) then AsString(m) else FailedText(res.status))
      && r.error.code == JsNum(CodeOr(RawOf(res).code.value, res.status))
    // any other failure: the raw text when it is a non-empty string, else a generic text
    ensures !res.ok && !IsEnvelope(res) ==>
      r.error.code == JsNum(res.status)
      && r.error.message == (if RawOf(res).RString? && RawOf(res).s != "" then RawOf(res).s else FailedText(res.status))
    // an envelope-shaped success body is returned as it is
    ensures res.ok && IsEnvelope(res) ==>
      var o := RawOf(res);
      r.value == Envelope(o.code.value, o.message.value, o.data)
    // any other success body is wrapped as data of a synthesized success envelope
    ensures res.ok && !IsEnvelope(res) ==> r.value == Envelope(JsNum(200), JsStr("success"), Some(RawOf(res)))
  {
    var raw := RawOf(res);
    if !res.ok then
      if IsEnvelope(res) then
        var m := raw.message.value;
        Err(NewApiError(MessageOr(m, FailedText(res.status)), JsNum(CodeOr(raw.code.value, res.status)), res.status))
      else
        Err(NewApiError(if raw.RString? && raw.s != "" then raw.s else FailedText(res.status), JsNum(res.status), res.status))
    else if IsEnvelope(res) then
      Ok(Envelope(raw.code.value, raw.message.value, raw.data))
    else
      Ok(Envelope(JsNum(200), JsStr("success"), Some(raw)))
  }

  /** An unparsable JSON success body is treated as `{}` and so wrapped as data. */
  lemma UnparsableJsonIsWrapped(status: int, text: string)
    ensures Request(FetchResult(true, status, true, text, None))
      == Ok(Envelope(JsNum(200), JsStr("success"), Some(RObject(None, None, None))))
  {
  }

  /** A JSON object with only one of code/message is no envelope: on success it is wrapped whole. */
  lemma PartialEnvelopeIsWrapped(status: int, text: string, c: Option<JsCode>, m: Option<JsText>, d: Option<Raw>)
    requires c.None? || m.None?
    ensures Request(FetchResult(true, status, true, text, Some(RObject(c, m, d))))
      == Ok(Envelope(JsNum(200), JsStr("success"), Some(RObject(c, m, d))))
  {
  }

  /** `http(path, init)`: the envelope's data when its code is the number 200, else an
      ApiError with status 200 carrying the envelope's code as it came and its message
      unless that is falsy. The data is returned even when it is absent. */
  function Http(res: FetchResult): (r: Result<Option<Raw>, ApiError>)
    ensures Request(res).Err? ==> r == Err(Request(res).error)
    ensures Request(res).Ok? && Request(res).value.code == JsNum(200) ==> r == Ok(Request(res).value.data)
    ensures Request(res).Ok? && Request(res).value.code != JsNum(200) ==>
      var e := Request(res).value;
      r.Err? && r.error.status == 200 && r.error.code == e.code
      && r.error.message == (if Truthy(e.message) then AsString(e.message) else "Request error")
  {
    match Request(res)
    case Err(e) => Err(e)
    case Ok(env) =>
      if env.code != JsNum(200) then
        Err(NewApiError(MessageOr(env.message, "Request error"), env.code, 200))
      else Ok(env.data)
  }

  /** `http` succeeds exactly on a 2xx response whose envelope code is the number 200;
      a wrapped (non-envelope) 2xx body always gets through with the body as data. */
  lemma HttpSucceedsIff(res: FetchResult)
    ensures Http(res).Ok? <==> res.ok && (!IsEnvelope(res) || RawOf(res).code.value == JsNum(200))
    ensures res.ok && !IsEnvelope(res) ==> Http(res) == Ok(Some(RawOf(res)))
  {
  }

  /** A 2xx envelope whose code is a string "200" (not the number) is rejected by `http`. */
  lemma StringCodeRejected(status: int, text: string, m: JsText, d: Option<Raw>)
    ensures Http(FetchResult(true, status, true, text, Some(RObject(Some(JsOther(Some(200))), Some(m), d)))).Err?
  {
  }

  /** Unlike a failure status, a 2xx envelope with code 0 and a null message keeps the
      code 0 in the error (no `|| res.status` here) and falls back to "Request error". */
  lemma NullMessageZeroCode(status: int, text: string, d: Option<Raw>)
    ensures var r := Http(FetchResult(true, status, true, text, Some(RObject(Some(JsNum(0)), Some(JsNonString(false, "null")), d))));
            r == Err(ApiError("ApiError", "Request error", JsNum(0), 200))
  {
  }

  /** A non-2xx envelope with a falsy message and code 0 raises the generic failure text
      with the HTTP status standing in for the code. */
  lemma FailureFallsBackToStatus(status: int, text: string, d: Option<Raw>)
    ensures var r := Request(FetchResult(false, status, true, text, Some(RObject(Some(JsNum(0)), Some(JsStr("")), d))));
            r == Err(ApiError("ApiError", FailedText(status), JsNum(status), status))
  {
  }
}
