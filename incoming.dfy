/** Validation of one parsed JSON object into the incoming-record shape
    (`schemas/incoming.py`): alias resolution in priority order, soft integer
    coercion that refuses booleans, text normalisation, and acceptance of
    unknown keys. */
module Incoming {
  import opened Wrappers
  import opened Text
  import opened Library

  // Candidate keys per field, tried in this order; the first key present wins.
  const TsAliases: seq<string> := ["ts", "timestamp", "time"]
  const EventTypeAliases: seq<string> := ["event_type", "type"]
  const MessageAliases: seq<string> := ["msg", "message"]
  const HttpStatusAliases: seq<string> := ["status", "http_status"]
  const HttpMethodAliases: seq<string> := ["method", "http_method"]
  const HttpPathAliases: seq<string> := ["path", "http_path"]

  /** Every key the record reads; any other key is accepted and ignored. */
  const KnownKeys: set<string> := {
    "ts", "timestamp", "time", "app", "host", "level", "event_type", "type",
    "msg", "message", "request_id", "user_id", "src_ip", "user_agent",
    "status", "http_status", "method", "http_method", "path", "http_path",
    "latency_ms", "error_type", "data"}

  /** Index of the first candidate key present in the object, or the number
      of candidates when none is. */
  function FirstPresent(obj: map<string, Json>, aliases: seq<string>): (k: nat)
    ensures k <= |aliases|
    ensures forall j | 0 <= j < k :: aliases[j] !in obj
    ensures k < |aliases| ==> aliases[k] in obj
  {
    if aliases == [] then 0
    else if aliases[0] in obj then 0
    else 1 + FirstPresent(obj, aliases[1..])
  }

  /** The value under the first candidate key present (even when that value
      is `null`), or `None` when no candidate is present. */
  function Resolve(obj: map<string, Json>, aliases: seq<string>): Option<Json> {
    var k := FirstPresent(obj, aliases);
    if k < |aliases| then Some(obj[aliases[k]]) else None
  }

  /** First match wins: the value comes from the earliest candidate key that is
      present, and there is a value exactly when some candidate is present. */
  lemma ResolveFirstMatch(obj: map<string, Json>, aliases: seq<string>, i: nat)
    requires i < |aliases| && aliases[i] in obj
    requires forall j | 0 <= j < i :: aliases[j] !in obj
    ensures Resolve(obj, aliases) == Some(obj[aliases[i]])
  {
  }

  lemma ResolveAbsent(obj: map<string, Json>, aliases: seq<string>)
    requires forall j | 0 <= j < |aliases| :: aliases[j] !in obj
    ensures Resolve(obj, aliases) == None
  {
  }

  /** A key outside the candidate list does not affect which candidate wins. */
  lemma {:induction false} FirstPresentIgnoresOtherKeys(obj: map<string, Json>, aliases: seq<string>, key: string, v: Json)
    requires key !in aliases
    ensures FirstPresent(obj[key := v], aliases) == FirstPresent(obj, aliases)
  {
    if aliases != [] && aliases[0] !in obj {
      FirstPresentIgnoresOtherKeys(obj, aliases[1..], key, v);
    }
  }

  predicate IsDigit(c: char) {
    '0' <= c <= '9'
  }

  predicate AllDigits(s: string) {
    forall i | 0 <= i < |s| :: IsDigit(s[i])
  }

  /** Decimal digits and `_` separators only. */
  predicate DigitsOrSeparators(s: string) {
    forall i | 0 <= i < |s| :: IsDigit(s[i]) || s[i] == '_'
  }

  /** The digit text `int()` accepts: decimal digits, where a single `_` may
      stand between two digits. */
  predicate Grouped(s: string) {
    && |s| > 0 && IsDigit(s[0]) && IsDigit(s[|s| - 1])
    && DigitsOrSeparators(s)
    && forall i | 0 <= i < |s| - 1 :: s[i] == '_' ==> IsDigit(s[i + 1])
  }

  /** The value of decimal digits, skipping `_` separators. */
  function DigitsValue(s: string): nat
    requires DigitsOrSeparators(s)
  {
    if s == [] then 0
    else if s[|s| - 1] == '_' then DigitsValue(s[..|s| - 1])
    else DigitsValue(s[..|s| - 1]) * 10 + ((s[|s| - 1] as int) - ('0' as int))
  }

  /** `str(n)` for a non-negative integer. */
  function NatToString(n: nat): (r: string)
    ensures r != [] && AllDigits(r)
  {
    var d := ('0' as int + n % 10) as char;
    if n < 10 then [d] else NatToString(n / 10) + [d]
  }

  /** `str(i)` for an integer. */
  function IntToString(i: int): (r: string)
    ensures r != [] && Stripped(r)
  {
    var s := if i < 0 then "-" + NatToString(-i) else NatToString(i);
    assert IsDigit(s[|s| - 1]);
    s
  }

  /** `int(s)` for a string: surrounding whitespace, then an optional sign,
      then decimal digits with single `_` separators between digits;
      anything else is `None` (the `ValueError` the coercion catches). */
  function ParseInt(s: string): Option<int> {
    var t := Strip(s);
    if t == [] then None
    else
      var digits := if t[0] == '-' || t[0] == '+' then t[1..] else t;
      if !Grouped(digits) then None
      else if t[0] == '-' then Some(0 - DigitsValue(digits))
      else Some(DigitsValue(digits))
  }

  lemma {:induction false} NatToStringValue(n: nat)
    ensures DigitsValue(NatToString(n)) == n
  {
    if n >= 10 {
      NatToStringValue(n / 10);
      var s := NatToString(n);
      assert s[..|s| - 1] == NatToString(n / 10);
    }
  }

  /** Plain digits are grouped digit text. */
  lemma AllDigitsGrouped(t: string)
    requires t != [] && AllDigits(t)
    ensures Grouped(t)
  {
    assert IsDigit(t[0]) && IsDigit(t[|t| - 1]);
  }

  /** Parsing stripped unsigned digits gives their value. */
  lemma ParseUnsigned(t: string)
    requires t != [] && Strip(t) == t && AllDigits(t)
    ensures ParseInt(t) == Some(DigitsValue(t))
  {
    assert IsDigit(t[0]);
    AllDigitsGrouped(t);
  }

  /** Parsing stripped digits after a minus sign gives their negated value. */
  lemma ParseNegative(t: string)
    requires |t| > 1 && Strip(t) == t && t[0] == '-' && AllDigits(t[1..])
    ensures ParseInt(t) == Some(0 - DigitsValue(t[1..]))
  {
    AllDigitsGrouped(t[1..]);
  }

  /** Parsing the decimal text of any integer gives that integer back. */
  lemma ParseIntRoundTrip(i: int)
    ensures ParseInt(IntToString(i)) == Some(i)
  {
    var s := IntToString(i);
    StripStripped(s);
    if i < 0 {
      var d := NatToString(-i);
      assert s == "-" + d;
      assert s[1..] == d;
      NatToStringValue(-i);
      ParseNegative(s);
    } else {
      NatToStringValue(i);
      ParseUnsigned(s);
    }
  }

  /** A `_` separator does not change the value of the digits around it. */
  lemma {:induction false} SeparatorValue(a: string, b: string)
    requires DigitsOrSeparators(a) && DigitsOrSeparators(b)
    ensures DigitsOrSeparators(a + "_" + b) && DigitsOrSeparators(a + b)
    ensures DigitsValue(a + "_" + b) == DigitsValue(a + b)
    decreases |b|
  {
    var w, v := a + "_" + b, a + b;
    assert forall i | 0 <= i < |w| :: w[i] == (if i < |a| then a[i] else if i == |a| then '_' else b[i - |a| - 1]);
    assert forall i | 0 <= i < |v| :: v[i] == (if i < |a| then a[i] else b[i - |a|]);
    if b == [] {
      assert w[..|w| - 1] == a && v == a;
    } else {
      var b' := b[..|b| - 1];
      SeparatorValue(a, b');
      assert w[..|w| - 1] == a + "_" + b';
      assert v[..|v| - 1] == a + b';
    }
  }

  /** `int()` accepts one `_` between two runs of digits and reads the
      digits as if it were not there: `int("4_04") == 404`. */
  lemma ParseIntSeparator(a: string, b: string)
    requires a != [] && b != [] && AllDigits(a) && AllDigits(b)
    ensures ParseInt(a + "_" + b) == Some(DigitsValue(a + b))
  {
    var t := a + "_" + b;
    assert t[0] == a[0] && t[|t| - 1] == b[|b| - 1];
    assert IsDigit(t[0]) && !IsSpace(t[0]) && !IsSpace(t[|t| - 1]);
    StripStripped(t);
    forall i | 0 <= i < |t| - 1 && t[i] == '_'
      ensures IsDigit(t[i + 1])
    {
      assert i == |a|;
      assert t[i + 1] == b[0];
    }
    SeparatorValue(a, b);
  }

  /** Two separators in a row are refused: `int("4__04")` raises. */
  lemma ParseIntDoubleSeparator(a: string, b: string)
    requires a != [] && b != [] && AllDigits(a) && AllDigits(b)
    ensures ParseInt(a + "__" + b) == None
  {
    var t := a + "__" + b;
    assert t[0] == a[0] && t[|t| - 1] == b[|b| - 1];
    assert IsDigit(t[0]) && !IsSpace(t[0]) && !IsSpace(t[|t| - 1]);
    StripStripped(t);
    assert t[|a|] == '_' && t[|a| + 1] == '_';
  }

  /** A leading separator is refused: `int("_404")` raises. */
  lemma ParseIntLeadingSeparator(a: string)
    requires AllDigits(a)
    ensures ParseInt("_" + a) == None
  {
    var t := "_" + a;
    if a != [] {
      assert t[|t| - 1] == a[|a| - 1] && IsDigit(a[|a| - 1]);
    }
    assert Stripped(t);
    StripStripped(t);
    assert !IsDigit(t[0]);
  }

  /** A trailing separator is refused: `int("404_")` raises. */
  lemma ParseIntTrailingSeparator(a: string)
    requires AllDigits(a)
    ensures ParseInt(a + "_") == None
  {
    var t := a + "_";
    if a != [] {
      assert t[0] == a[0] && IsDigit(a[0]);
    }
    assert Stripped(t);
    StripStripped(t);
    assert !IsDigit(t[|t| - 1]);
  }

  /** `int(f)` for a float: truncation toward zero. */
  function Truncate(f: real): (r: int)
    ensures 0.0 <= f ==> r as real <= f < r as real + 1.0
    ensures f < 0.0 ==> r as real - 1.0 < f <= r as real
  {
    if f >= 0.0 then f.Floor else -((-f).Floor)
  }

  /** The integer coercion applied to `http_status` before validation. It never
      fails: `null`, the empty string, booleans, arrays, objects and
      unparsable text all give `None`. */
  function SoftInt(v: Option<Json>): (r: Option<int>)
    ensures v.None? || v == Some(JNull) || v == Some(JString("")) ==> r.None?
    ensures v.Some? && (v.value.JBool? || v.value.JArray? || v.value.JObject?) ==> r.None?
    ensures v.Some? && v.value.JInt? ==> r == Some(v.value.i)
    ensures v.Some? && v.value.JString? ==> r == ParseInt(v.value.s)
    ensures v.Some? && v.value.JFloat? ==> r == Some(Truncate(v.value.f))
  {
    if v.None? then None
    else match v.value
      case JNull => None
      case JBool(_) => None
      case JInt(i) => Some(i)
      case JFloat(f) => Some(Truncate(f))
      case JString(s) => if s == "" then None else ParseInt(s)
      case JArray(_) => None
      case JObject(_) => None
  }

  /** A status given as the decimal text of an integer becomes that integer. */
  lemma SoftIntOfIntegerText(i: int)
    ensures SoftInt(Some(JString(IntToString(i)))) == Some(i)
  {
    ParseIntRoundTrip(i);
  }

  /** The float coercion applied to `latency_ms`: the same refusals as
      `SoftInt`, with the conversion itself left to `float()`. */
  function SoftFloat(v: Option<Json>, lib: Lib): (r: Option<real>)
    ensures v.None? || v == Some(JNull) || v == Some(JString("")) ==> r.None?
    ensures v.Some? && v.value.JBool? ==> r.None?
  {
    if v.None? then None
    else match v.value
      case JNull => None
      case JBool(_) => None
      case JString(s) => if s == "" then None else lib.toFloat(v.value)
      case _ => lib.toFloat(v.value)
  }

  function NonEmpty(s: string): (r: Option<string>)
    ensures r.None? <==> s == []
    ensures r.Some? ==> r.value == s
  {
    if s == [] then None else Some(s)
  }

  /** The normalisation applied to every free-text field: numbers and booleans
      are stringified, strings are stripped, empty results and non-primitive
      values become `None`. */
  function TextNormalize(v: Option<Json>, lib: Lib): (r: Option<string>)
    ensures r.Some? ==> r.value != [] && Stripped(r.value)
    ensures v.None? ==> r.None?
    ensures v.Some? && (v.value.JNull? || v.value.JArray? || v.value.JObject?) ==> r.None?
    ensures v.Some? && v.value.JString? ==> (r.None? <==> AllSpace(v.value.s))
    ensures v.Some? && v.value.JString? && r.Some? ==> r.value == Strip(v.value.s)
  {
    if v.None? then None
    else match v.value
      case JNull => None
      case JBool(b) => NonEmpty(Strip(if b then "True" else "False"))
      case JInt(i) => NonEmpty(Strip(IntToString(i)))
      case JFloat(f) => NonEmpty(Strip(lib.floatRepr(f)))
      case JString(s) => NonEmpty(Strip(s))
      case JArray(_) => None
      case JObject(_) => None
  }

  /** Text already free of surrounding whitespace is kept as it is. */
  lemma TextNormalizeKeepsStrippedText(s: string, lib: Lib)
    requires s != [] && Stripped(s)
    ensures TextNormalize(Some(JString(s)), lib) == Some(s)
  {
    assert !IsSpace(s[0]);
    StripStripped(s);
  }

  /** Integers in text fields become their decimal text. */
  lemma TextNormalizeStringifiesInt(i: int, lib: Lib)
    ensures TextNormalize(Some(JInt(i)), lib) == Some(IntToString(i))
  {
    var s := IntToString(i);
    StripStripped(s);
    assert TextNormalize(Some(JInt(i)), lib) == NonEmpty(Strip(s));
  }

  /** Booleans in text fields become their Python spelling. */
  lemma TextNormalizeStringifiesBool(b: bool, lib: Lib)
    ensures TextNormalize(Some(JBool(b)), lib) == Some(if b then "True" else "False")
  {
    var s := if b then "True" else "False";
    assert !IsSpace(s[0]) && !IsSpace(s[|s| - 1]);
    StripStripped(s);
    assert TextNormalize(Some(JBool(b)), lib) == NonEmpty(Strip(s));
  }

  /** The validated incoming record. `ts` holds the UTC datetime as rendered
      by `isoformat(timespec="microseconds")`; `data` is the side payload. */
  datatype IncomingLogEvent = IncomingLogEvent(
    ts: Option<string>,
    app: Option<string>,
    host: Option<string>,
    level: Option<string>,
    eventType: Option<string>,
    message: Option<string>,
    requestId: Option<string>,
    userId: Option<string>,
    srcIp: Option<string>,
    userAgent: Option<string>,
    httpStatus: Option<int>,
    httpMethod: Option<string>,
    httpPath: Option<string>,
    latencyMs: Option<real>,
    errorType: Option<string>,
    data: Option<Json>)

  /** The only validation failure left once the lenient coercions are in
      place: a timestamp that is present, not `null`, and not a datetime. */
  datatype ValidationError = InvalidTimestamp(value: Json)

  /** The raw value of each field, each taken from its first present key. */
  datatype RawFields = RawFields(
    ts: Option<Json>, app: Option<Json>, host: Option<Json>, level: Option<Json>,
    eventType: Option<Json>, message: Option<Json>, requestId: Option<Json>,
    userId: Option<Json>, srcIp: Option<Json>, userAgent: Option<Json>,
    httpStatus: Option<Json>, httpMethod: Option<Json>, httpPath: Option<Json>,
    latencyMs: Option<Json>, errorType: Option<Json>, data: Option<Json>)

  function Gather(obj: map<string, Json>): RawFields {
    RawFields(
      ts := Resolve(obj, TsAliases),
      app := Resolve(obj, ["app"]),
      host := Resolve(obj, ["host"]),
      level := Resolve(obj, ["level"]),
      eventType := Resolve(obj, EventTypeAliases),
      message := Resolve(obj, MessageAliases),
      requestId := Resolve(obj, ["request_id"]),
      userId := Resolve(obj, ["user_id"]),
      srcIp := Resolve(obj, ["src_ip"]),
      userAgent := Resolve(obj, ["user_agent"]),
      httpStatus := Resolve(obj, HttpStatusAliases),
      httpMethod := Resolve(obj, HttpMethodAliases),
      httpPath := Resolve(obj, HttpPathAliases),
      latencyMs := Resolve(obj, ["latency_ms"]),
      errorType := Resolve(obj, ["error_type"]),
      data := Resolve(obj, ["data"]))
  }

  /** The field validators applied to the gathered raw values. */
  function ValidateFields(raw: RawFields, lib: Lib): Result<IncomingLogEvent, ValidationError> {
    if raw.ts.Some? && raw.ts.value != JNull && lib.parseDateTime(raw.ts.value).None? then
      Err(InvalidTimestamp(raw.ts.value))
    else
      Ok(IncomingLogEvent(
        ts := if raw.ts.None? || raw.ts.value == JNull then None else lib.parseDateTime(raw.ts.value),
        app := TextNormalize(raw.app, lib),
        host := TextNormalize(raw.host, lib),
        level := TextNormalize(raw.level, lib),
        eventType := TextNormalize(raw.eventType, lib),
        message := TextNormalize(raw.message, lib),
        requestId := TextNormalize(raw.requestId, lib),
        userId := TextNormalize(raw.userId, lib),
        srcIp := TextNormalize(raw.srcIp, lib),
        userAgent := TextNormalize(raw.userAgent, lib),
        httpStatus := SoftInt(raw.httpStatus),
        httpMethod := TextNormalize(raw.httpMethod, lib),
        httpPath := TextNormalize(raw.httpPath, lib),
        latencyMs := SoftFloat(raw.latencyMs, lib),
        errorType := TextNormalize(raw.errorType, lib),
        data := if raw.data.Some? && raw.data.value != JNull then raw.data else None))
  }

  /** `IncomingLogEvent.model_validate(obj)`. */
  function Validate(obj: map<string, Json>, lib: Lib): (r: Result<IncomingLogEvent, ValidationError>)
    ensures r.Err? <==> (var t := Resolve(obj, TsAliases); t.Some? && t.value != JNull && lib.parseDateTime(t.value).None?)
    ensures r.Ok? ==> r.value.ts == (var t := Resolve(obj, TsAliases); if t.None? || t.value == JNull then None else lib.parseDateTime(t.value))
    ensures r.Ok? ==> r.value.app == TextNormalize(Resolve(obj, ["app"]), lib)
    ensures r.Ok? ==> r.value.host == TextNormalize(Resolve(obj, ["host"]), lib)
    ensures r.Ok? ==> r.value.level == TextNormalize(Resolve(obj, ["level"]), lib)
    ensures r.Ok? ==> r.value.message == TextNormalize(Resolve(obj, MessageAliases), lib)
    ensures r.Ok? ==> r.value.eventType == TextNormalize(Resolve(obj, EventTypeAliases), lib)
    ensures r.Ok? ==> r.value.requestId == TextNormalize(Resolve(obj, ["request_id"]), lib)
    ensures r.Ok? ==> r.value.userId == TextNormalize(Resolve(obj, ["user_id"]), lib)
    ensures r.Ok? ==> r.value.srcIp == TextNormalize(Resolve(obj, ["src_ip"]), lib)
    ensures r.Ok? ==> r.value.userAgent == TextNormalize(Resolve(obj, ["user_agent"]), lib)
    ensures r.Ok? ==> r.value.httpStatus == SoftInt(Resolve(obj, HttpStatusAliases))
    ensures r.Ok? ==> r.value.httpMethod == TextNormalize(Resolve(obj, HttpMethodAliases), lib)
    ensures r.Ok? ==> r.value.httpPath == TextNormalize(Resolve(obj, HttpPathAliases), lib)
    ensures r.Ok? ==> r.value.latencyMs == SoftFloat(Resolve(obj, ["latency_ms"]), lib)
    ensures r.Ok? ==> r.value.errorType == TextNormalize(Resolve(obj, ["error_type"]), lib)
    ensures r.Ok? ==> r.value.data == (if "data" in obj && obj["data"] != JNull then Some(obj["data"]) else None)
  {
    ValidateFields(Gather(obj), lib)
  }

  /** The record's timestamp comes from `ts` when that key is present, else
      from `timestamp`, else from `time`; a present `null` leaves it unset, and
      a present value that is not a datetime is the validation error. */
  lemma ValidateTimestampPriority(obj: map<string, Json>, lib: Lib)
    ensures var t := if "ts" in obj then Some(obj["ts"])
                     else if "timestamp" in obj then Some(obj["timestamp"])
                     else if "time" in obj then Some(obj["time"])
                     else None;
            && (Validate(obj, lib).Err? <==> t.Some? && t.value != JNull && lib.parseDateTime(t.value).None?)
            && (Validate(obj, lib).Ok? ==>
                  Validate(obj, lib).value.ts == (if t.None? || t.value == JNull then None else lib.parseDateTime(t.value)))
  {
    var a := TsAliases;
    assert a[0] == "ts" && a[1] == "timestamp" && a[2] == "time";
    if "ts" in obj {
      ResolveFirstMatch(obj, a, 0);
    } else if "timestamp" in obj {
      ResolveFirstMatch(obj, a, 1);
    } else if "time" in obj {
      ResolveFirstMatch(obj, a, 2);
    } else {
      ResolveAbsent(obj, a);
    }
  }

  /** A key outside the candidate list does not change what resolves. */
  lemma ResolveIgnoresOtherKeys(obj: map<string, Json>, aliases: seq<string>, key: string, v: Json)
    requires key !in aliases
    ensures Resolve(obj[key := v], aliases) == Resolve(obj, aliases)
  {
    FirstPresentIgnoresOtherKeys(obj, aliases, key, v);
  }

  /** Adding or replacing a key the record does not read leaves every
      gathered field as it was. */
  lemma GatherIgnoresUnknownKeys(obj: map<string, Json>, key: string, v: Json)
    requires key !in KnownKeys
    ensures Gather(obj[key := v]) == Gather(obj)
  {
    ResolveIgnoresOtherKeys(obj, TsAliases, key, v);
    ResolveIgnoresOtherKeys(obj, ["app"], key, v);
    ResolveIgnoresOtherKeys(obj, ["host"], key, v);
    ResolveIgnoresOtherKeys(obj, ["level"], key, v);
    ResolveIgnoresOtherKeys(obj, EventTypeAliases, key, v);
    ResolveIgnoresOtherKeys(obj, MessageAliases, key, v);
    ResolveIgnoresOtherKeys(obj, ["request_id"], key, v);
    ResolveIgnoresOtherKeys(obj, ["user_id"], key, v);
    ResolveIgnoresOtherKeys(obj, ["src_ip"], key, v);
    ResolveIgnoresOtherKeys(obj, ["user_agent"], key, v);
    ResolveIgnoresOtherKeys(obj, HttpStatusAliases, key, v);
    ResolveIgnoresOtherKeys(obj, HttpMethodAliases, key, v);
    ResolveIgnoresOtherKeys(obj, HttpPathAliases, key, v);
    ResolveIgnoresOtherKeys(obj, ["latency_ms"], key, v);
    ResolveIgnoresOtherKeys(obj, ["error_type"], key, v);
    ResolveIgnoresOtherKeys(obj, ["data"], key, v);
  }

  /** Adding or replacing a key the record does not read changes nothing:
      neither whether validation succeeds nor any field of the record. */
  lemma UnknownKeysIgnored(obj: map<string, Json>, key: string, v: Json, lib: Lib)
    requires key !in KnownKeys
    ensures Validate(obj[key := v], lib) == Validate(obj, lib)
  {
    GatherIgnoresUnknownKeys(obj, key, v);
  }
}
