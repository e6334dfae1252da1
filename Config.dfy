/** The two readers of `strconv` the configuration uses, for base 10 on a 64-bit
    platform. */
module GoStrconv {
  import opened Wrappers
  import opened Text

  const MinInt64 := -0x8000_0000_0000_0000
  const MaxInt64 := 0x7fff_ffff_ffff_ffff

  /** `strconv.ParseBool`: the six spellings of true and of false, nothing else. */
  function ParseBool(s: string): (r: Option<bool>)
    ensures r == Some(true) <==> s in {"1", "t", "T", "TRUE", "true", "True"}
    ensures r == Some(false) <==> s in {"0", "f", "F", "FALSE", "false", "False"}
  {
    if s in {"1", "t", "T", "TRUE", "true", "True"} then Some(true)
    else if s in {"0", "f", "F", "FALSE", "false", "False"} then Some(false)
    else None
  }

  function FormatBool(b: bool): string {
    if b then "true" else "false"
  }

  /** Reading back the printed form of a boolean gives the boolean. */
  lemma ParseBoolRoundTrip(b: bool)
    ensures ParseBool(FormatBool(b)) == Some(b)
  {
  }

  /** `strconv.Atoi`: an optional sign and at least one decimal digit, within the range
      of a 64-bit int. */
  function Atoi(s: string): (r: Option<int>)
    ensures r.Some? ==> MinInt64 <= r.value <= MaxInt64
    ensures r.Some? ==> |s| > 0
  {
    var negative := |s| > 0 && s[0] == '-';
    var digits := if |s| > 0 && (s[0] == '-' || s[0] == '+') then s[1..] else s;
    if |digits| == 0 || !AllDigits(digits) then None
    else
      var magnitude: int := DigitsValue(digits);
      var v := if negative then -magnitude else magnitude;
      if MinInt64 <= v <= MaxInt64 then Some(v) else None
  }

  /** Reading back the decimal form of a 64-bit int gives the int. */
  lemma AtoiRoundTrip(n: int)
    requires MinInt64 <= n <= MaxInt64
    ensures Atoi(IntToString(n)) == Some(n)
  {
    var s := IntToString(n);
    var m: nat := if n < 0 then -n else n;
    var d := NatToString(m);
    NatToStringRoundTrip(m);
    if n < 0 {
      assert s == "-" + d && s[0] == '-' && s[1..] == d;
    } else {
      assert s == d && IsDigit(s[0]);
      assert s[0] != '-' && s[0] != '+';
    }
  }
}

/** The CORS settings (server/config/cors.go). Each environment variable is a parameter,
    and so is whether gin runs in debug mode. */
module CorsConfig {
  import opened Text
  import opened Wrappers
  import GoStrconv

  const DebugOrigins := ["http://localhost:1420", "https://tauri.localhost", "http://localhost:3000", "http://localhost:8080"]
  const ReleaseOrigins := ["https://tauri.localhost"]
  const DefaultMethods := ["GET", "POST", "PUT", "DELETE", "OPTIONS", "PATCH"]
  const DefaultHeaders := ["Origin", "Content-Type", "Authorization", "X-Request-ID", "Accept", "X-Requested-With"]
  const DefaultExposeHeaders := ["Content-Length", "X-Request-ID"]

  /** Every string trimmed, in order. */
  function TrimAll(fields: seq<string>): (r: seq<string>)
    ensures |r| == |fields|
    ensures forall i :: 0 <= i < |fields| ==> r[i] == Trim(Text.Go, fields[i])
  {
    if fields == [] then [] else [Trim(Text.Go, fields[0])] + TrimAll(fields[1..])
  }

  /** The list that holds each field trimmed, in order, is `TrimAll` of the fields. */
  lemma TrimAllIs(fields: seq<string>, r: seq<string>)
    requires |r| == |fields| && forall i :: 0 <= i < |fields| ==> r[i] == Trim(Text.Go, fields[i])
    ensures r == TrimAll(fields)
  {
  }

  /** The parse of a non-empty list variable: split at each comma, then each field
      overwritten in place by its trimmed form. */
  method TrimmedFields(value: string) returns (r: seq<string>)
    ensures r == TrimAll(Split(value, ','))
  {
    var fields := Split(value, ',');
    var list := new string[|fields|](i => if 0 <= i < |fields| then fields[i] else "");
    assert list[..] == fields;
    TrimEach(list);
    r := list[..];
    TrimAllIs(fields, r);
  }

  /** The loop that trims every element of the list in place. */
  method TrimEach(list: array<string>)
    modifies list
    ensures forall j :: 0 <= j < list.Length ==> list[j] == Trim(Text.Go, old(list[j]))
  {
    var i := 0;
    while i < list.Length
      invariant 0 <= i <= list.Length
      invariant forall j :: 0 <= j < i ==> list[j] == Trim(Text.Go, old(list[j]))
      invariant forall j :: i <= j < list.Length ==> list[j] == old(list[j])
    {
      list[i] := Trim(Text.Go, list[i]);
      i := i + 1;
    }
  }

  /** Neither end of the string is white space. */
  predicate NoEdgeSpace(f: string) {
    f == [] || (!IsSpace(Text.Go, f[0]) && !IsSpace(Text.Go, f[|f| - 1]))
  }

  /** A parsed list has one element per comma-separated field, commas + 1 of them, and
      none starts or ends with white space. */
  lemma TrimmedFieldsShape(value: string)
    ensures |TrimAll(Split(value, ','))| == CountChar(value, ',') + 1
    ensures forall i :: 0 <= i < |TrimAll(Split(value, ','))| ==> NoEdgeSpace(TrimAll(Split(value, ','))[i])
  {
    SplitProperties(value, ',');
    TrimAllEdges(Split(value, ','));
  }

  lemma TrimAllEdges(fields: seq<string>)
    ensures forall i :: 0 <= i < |fields| ==> NoEdgeSpace(TrimAll(fields)[i])
  {
    var r := TrimAll(fields);
    forall i | 0 <= i < |fields| ensures NoEdgeSpace(r[i]) {
      TrimEnds(fields[i]);
    }
  }

  lemma TrimEnds(s: string)
    ensures NoEdgeSpace(Trim(Text.Go, s))
  {
    TrimProperties(Text.Go, s);
  }

  /** A list variable: its parse when set, the default otherwise. */
  method ListSetting(value: string, default: seq<string>) returns (r: seq<string>)
    ensures value != "" ==> r == TrimAll(Split(value, ','))
    ensures value == "" ==> r == default
  {
    if value != "" {
      r := TrimmedFields(value);
      return;
    }
    r := default;
  }

  /** `getAllowOrigins`: the parsed CORS_ORIGINS, else four local origins in debug mode
      and only the Tauri origin otherwise. */
  method AllowOrigins(origins: string, debug: bool) returns (r: seq<string>)
    ensures origins != "" ==> r == TrimAll(Split(origins, ','))
    ensures origins == "" && debug ==> r == DebugOrigins
    ensures origins == "" && !debug ==> r == ReleaseOrigins
  {
    r := ListSetting(origins, if debug then DebugOrigins else ReleaseOrigins);
  }

  /** `getAllowMethods`. */
  method AllowMethods(methods: string) returns (r: seq<string>)
    ensures methods != "" ==> r == TrimAll(Split(methods, ','))
    ensures methods == "" ==> r == DefaultMethods
  {
    r := ListSetting(methods, DefaultMethods);
  }

  /** `getAllowHeaders`. */
  method AllowHeaders(headers: string) returns (r: seq<string>)
    ensures headers != "" ==> r == TrimAll(Split(headers, ','))
    ensures headers == "" ==> r == DefaultHeaders
  {
    r := ListSetting(headers, DefaultHeaders);
  }

  /** `getExposeHeaders`. */
  method ExposeHeaders(headers: string) returns (r: seq<string>)
    ensures headers != "" ==> r == TrimAll(Split(headers, ','))
    ensures headers == "" ==> r == DefaultExposeHeaders
  {
    r := ListSetting(headers, DefaultExposeHeaders);
  }

  /** `getAllowCredentials`: a value `ParseBool` reads, else true. */
  function AllowCredentials(credentials: string): (r: bool)
    ensures GoStrconv.ParseBool(credentials).Some? ==> r == GoStrconv.ParseBool(credentials).value
    ensures GoStrconv.ParseBool(credentials).None? ==> r
    ensures !r <==> credentials in {"0", "f", "F", "FALSE", "false", "False"}
  {
    match GoStrconv.ParseBool(credentials)
    case Some(b) => b
    case None => true
  }

  datatype CorsEnv = CorsEnv(origins: string, methods: string, headers: string, exposeHeaders: string, credentials: string)

  datatype CorsSettings = CorsSettings(
    allowOrigins: seq<string>, allowMethods: seq<string>, allowHeaders: seq<string>,
    exposeHeaders: seq<string>, allowCredentials: bool)

  /** `LoadCORSConfig`: each setting from its own variable. */
  method LoadCorsConfig(env: CorsEnv, debug: bool) returns (c: CorsSettings)
    ensures env.origins == "" ==> c.allowOrigins == (if debug then DebugOrigins else ReleaseOrigins)
    ensures env.origins != "" ==> c.allowOrigins == TrimAll(Split(env.origins, ','))
    ensures c.allowMethods == (if env.methods == "" then DefaultMethods else TrimAll(Split(env.methods, ',')))
    ensures c.allowHeaders == (if env.headers == "" then DefaultHeaders else TrimAll(Split(env.headers, ',')))
    ensures c.exposeHeaders == (if env.exposeHeaders == "" then DefaultExposeHeaders else TrimAll(Split(env.exposeHeaders, ',')))
    ensures c.allowCredentials == AllowCredentials(env.credentials)
    ensures c.allowCredentials <== env.credentials == ""
  {
    var origins := AllowOrigins(env.origins, debug);
    var methods := AllowMethods(env.methods);
    var headers := AllowHeaders(env.headers);
    var expose := ExposeHeaders(env.exposeHeaders);
    c := CorsSettings(origins, methods, headers, expose, AllowCredentials(env.credentials));
  }
}

/** The logger settings (server/config/logger.go). Each environment variable is a
    parameter, and so is whether gin runs in debug mode. */
module LoggerConfig {
  import opened Wrappers
  import GoStrconv

  const Levels := {"debug", "info", "warn", "error", "fatal"}

  /** `getLogLevel`: one of the five level names, else debug in debug mode and info
      otherwise. */
  function LogLevel(level: string, debug: bool): (r: string)
    ensures r in Levels
    ensures level in Levels ==> r == level
    ensures level !in Levels ==> r == (if debug then "debug" else "info")
  {
    match level
    case "debug" => "debug"
    case "info" => "info"
    case "warn" => "warn"
    case "error" => "error"
    case "fatal" => "fatal"
    case _ => if debug then "debug" else "info"
  }

  /** `getLogOutput`: LOG_OUTPUT when set; else "both" when the older LOG_TO_FILE is
      "true"; else "stdout" in debug mode and "both" otherwise. */
  function LogOutput(output: string, toFile: string, debug: bool): (r: string)
    ensures output != "" ==> r == output
    ensures output == "" && toFile == "true" ==> r == "both"
    ensures output == "" && toFile != "true" ==> r == (if debug then "stdout" else "both")
    ensures r != ""
  {
    if output != "" then output
    else if toFile == "true" then "both"
    else if debug then "stdout"
    else "both"
  }

  /** `getLogFormat`. */
  function LogFormat(format: string, debug: bool): (r: string)
    ensures format != "" ==> r == format
    ensures format == "" ==> r == (if debug then "text" else "json")
    ensures r != ""
  {
    if format == "" then (if debug then "text" else "json") else format
  }

  /** `getLogFilePath`. */
  function LogFilePath(path: string): (r: string)
    ensures path != "" ==> r == path
    ensures path == "" ==> r == "logs/app.log"
    ensures r != ""
  {
    if path == "" then "logs/app.log" else path
  }

  /** A numeric variable: its value when `Atoi` reads it and `accept` admits it, the
      default otherwise. */
  function IntSetting(value: string, accept: int -> bool, default: int): (r: int)
    ensures GoStrconv.Atoi(value).Some? && accept(GoStrconv.Atoi(value).value) ==> r == GoStrconv.Atoi(value).value
    ensures !(GoStrconv.Atoi(value).Some? && accept(GoStrconv.Atoi(value).value)) ==> r == default
    ensures accept(default) ==> accept(r)
  {
    if value != "" then
      match GoStrconv.Atoi(value)
      case Some(n) => if accept(n) then n else default
      case None => default
    else default
  }

  function Positive(): int -> bool { (n: int) => n > 0 }
  function NonNegative(): int -> bool { (n: int) => n >= 0 }

  /** `getLogMaxSize`: a positive count of megabytes, 100 by default. */
  function MaxSize(value: string): (r: int)
    ensures r > 0
    ensures GoStrconv.Atoi(value).Some? && GoStrconv.Atoi(value).value > 0 ==> r == GoStrconv.Atoi(value).value
    ensures GoStrconv.Atoi(value).None? || GoStrconv.Atoi(value).value <= 0 ==> r == 100
  {
    IntSetting(value, Positive(), 100)
  }

  /** `getLogMaxBackups`: a count of at least zero, 3 by default. */
  function MaxBackups(value: string): (r: int)
    ensures r >= 0
    ensures GoStrconv.Atoi(value).Some? && GoStrconv.Atoi(value).value >= 0 ==> r == GoStrconv.Atoi(value).value
    ensures GoStrconv.Atoi(value).None? || GoStrconv.Atoi(value).value < 0 ==> r == 3
  {
    IntSetting(value, NonNegative(), 3)
  }

  /** `getLogMaxAge`: a positive count of days, 7 by default. */
  function MaxAge(value: string): (r: int)
    ensures r > 0
    ensures GoStrconv.Atoi(value).Some? && GoStrconv.Atoi(value).value > 0 ==> r == GoStrconv.Atoi(value).value
    ensures GoStrconv.Atoi(value).None? || GoStrconv.Atoi(value).value <= 0 ==> r == 7
  {
    IntSetting(value, Positive(), 7)
  }

  /** `getLogCompress`: a value `ParseBool` reads, else true. */
  function Compress(value: string): (r: bool)
    ensures GoStrconv.ParseBool(value).Some? ==> r == GoStrconv.ParseBool(value).value
    ensures !r <==> value in {"0", "f", "F", "FALSE", "false", "False"}
  {
    match GoStrconv.ParseBool(value)
    case Some(b) => b
    case None => true
  }
}
