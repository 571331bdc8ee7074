/** Mapping of a validated incoming record, plus where its line came from,
    to the canonical event (`ingest/normalize.py`). */
module Normalize {
  import opened Wrappers
  import opened Text
  import opened Library
  import opened Schemas
  import opened IngestUtils
  import opened Incoming

  /** The configuration the normaliser reads: the resolved log root (as path
      segments) and the per-field length caps (`<= 0` means no cap). */
  datatype Settings = Settings(
    logDir: seq<string>,
    maxMessageLen: int,
    maxUserAgentLen: int,
    maxHttpPathLen: int,
    maxDataJsonLen: int,
    maxRawJsonLen: int)

  /** `s.replace("Z", "+00:00")`. */
  function ReplaceZ(s: string): (r: string)
    ensures forall i | 0 <= i < |r| :: r[i] != 'Z'
    ensures (forall i | 0 <= i < |s| :: s[i] != 'Z') ==> r == s
  {
    if s == [] then []
    else (if s[0] == 'Z' then UtcOffsetSuffix else [s[0]]) + ReplaceZ(s[1..])
  }

  /** The event timestamp: the incoming one when present, otherwise the
      ingestion time re-parsed and rendered the same way, or the ingestion
      time verbatim when it does not parse. */
  function EventTs(incomingTs: Option<string>, receivedAt: string, lib: Lib): (ts: string)
    ensures incomingTs.Some? ==> ts == DtToUtcRfc3339Z(incomingTs.value)
    ensures incomingTs.None? && lib.fromIsoFormat(ReplaceZ(receivedAt)).None? ==> ts == receivedAt
    ensures incomingTs.None? && lib.fromIsoFormat(ReplaceZ(receivedAt)).Some? ==>
      ts == DtToUtcRfc3339Z(lib.fromIsoFormat(ReplaceZ(receivedAt)).value)
  {
    if incomingTs.Some? then DtToUtcRfc3339Z(incomingTs.value)
    else
      var parsed := lib.fromIsoFormat(ReplaceZ(receivedAt));
      if parsed.Some? then DtToUtcRfc3339Z(parsed.value) else receivedAt
  }

  /** `build_event`: `received_at` falls back to `now` when absent or empty. */
  function BuildEvent(
    incoming: IncomingLogEvent, rawLine: seq<byte>, filePath: seq<string>, sourceFile: string,
    sourceOffset: int, receivedAt: Option<string>, now: string, settings: Settings, lib: Lib): (e: Event)
    // provenance is copied verbatim
    ensures e.sourceFile == sourceFile && e.sourceOffset == sourceOffset
    ensures receivedAt.Some? && receivedAt.value != "" ==> e.receivedAt == receivedAt.value
    ensures e.ts == EventTs(incoming.ts, e.receivedAt, lib)
    // an explicit app wins over the one derived from the file's location
    ensures incoming.app.Some? && incoming.app.value != "" ==> e.app == incoming.app
    ensures incoming.app.None? ==> e.app == AppFromPath(settings.logDir, filePath)
    // capped free text: a non-empty prefix of the stripped input, within its cap
    ensures e.message == CapText(incoming.message, settings.maxMessageLen, true, true)
    ensures e.message.Some? ==>
      incoming.message.Some? && e.message.value != [] && IsPrefix(e.message.value, Strip(incoming.message.value))
    ensures e.userAgent == CapText(incoming.userAgent, settings.maxUserAgentLen, true, true)
    ensures e.httpPath == CapText(incoming.httpPath, settings.maxHttpPathLen, true, true)
    // the side payload is capped without stripping; no payload gives no text
    ensures e.dataJson == CapText(SafeJsonDumps(incoming.data, lib), settings.maxDataJsonLen, false, true)
    ensures incoming.data.None? ==> e.dataJson.None?
    // the raw line is always kept, capped, without its line ending
    ensures e.rawJson.Some? && IsPrefix(e.rawJson.value, DecodeJsonlLine(rawLine, lib))
    ensures settings.maxRawJsonLen <= 0 ==> e.rawJson == Some(DecodeJsonlLine(rawLine, lib))
    // the remaining fields pass through unchanged
    ensures e.host == incoming.host && e.level == incoming.level && e.eventType == incoming.eventType
    ensures e.requestId == incoming.requestId && e.userId == incoming.userId && e.srcIp == incoming.srcIp
    ensures e.httpMethod == incoming.httpMethod && e.httpStatus == incoming.httpStatus
    ensures e.latencyMs == incoming.latencyMs && e.errorType == incoming.errorType
  {
    var receivedAtVal := if receivedAt.Some? && receivedAt.value != "" then receivedAt.value else now;
    var app := if incoming.app.Some? && incoming.app.value != "" then incoming.app
               else AppFromPath(settings.logDir, filePath);
    var dataJson := SafeJsonDumps(incoming.data, lib);
    var rawJson := DecodeJsonlLine(rawLine, lib);
    Event(
      ts := EventTs(incoming.ts, receivedAtVal, lib),
      receivedAt := receivedAtVal,
      app := app,
      host := incoming.host,
      level := incoming.level,
      eventType := incoming.eventType,
      message := CapText(incoming.message, settings.maxMessageLen, true, true),
      requestId := incoming.requestId,
      userId := incoming.userId,
      srcIp := incoming.srcIp,
      userAgent := CapText(incoming.userAgent, settings.maxUserAgentLen, true, true),
      httpMethod := incoming.httpMethod,
      httpPath := CapText(incoming.httpPath, settings.maxHttpPathLen, true, true),
      httpStatus := incoming.httpStatus,
      latencyMs := incoming.latencyMs,
      errorType := incoming.errorType,
      dataJson := CapText(dataJson, settings.maxDataJsonLen, false, true),
      rawJson := CapText(Some(rawJson), settings.maxRawJsonLen, false, false),
      sourceFile := sourceFile,
      sourceOffset := sourceOffset)
  }

  /** Helper for `ExampleFields`: `str(404)` is `"404"`. */
  lemma IntegerText404()
    ensures IntToString(404) == "404"
  {
    assert NatToString(4) == "4";
    assert NatToString(40) == "40";
  }

  /** Only the `data` key feeds the side payload: a record without it (or
      with `data: null`) yields an event with no payload text, whatever other
      unread keys it carries. */
  lemma NoDataNoPayload(
    obj: map<string, Json>, rawLine: seq<byte>, filePath: seq<string>, sourceFile: string,
    sourceOffset: int, receivedAt: Option<string>, now: string, settings: Settings, lib: Lib)
    requires "data" !in obj || obj["data"] == JNull
    requires Validate(obj, lib).Ok?
    ensures BuildEvent(Validate(obj, lib).value, rawLine, filePath, sourceFile, sourceOffset, receivedAt, now, settings, lib).dataJson == None
  {
  }

  /** The line `{"msg":"hi","status":"404","extra":{"a":1}}` gives message
      "hi" and status 404; its `extra` key is accepted but is not the `data`
      side payload, so the event carries no payload text. */
  lemma UnreadKeyIsNotPayload(
    obj: map<string, Json>, rawLine: seq<byte>, filePath: seq<string>, sourceFile: string,
    sourceOffset: int, receivedAt: Option<string>, now: string, settings: Settings, lib: Lib)
    requires obj.Keys == {"msg", "status", "extra"}
    requires obj["msg"] == JString("hi") && obj["status"] == JString("404") && obj["extra"] == JObject(map["a" := JInt(1)])
    ensures Validate(obj, lib).Ok?
    ensures Validate(obj, lib).Ok? ==>
      && Validate(obj, lib).value.message == Some("hi")
      && Validate(obj, lib).value.httpStatus == Some(404)
      && BuildEvent(Validate(obj, lib).value, rawLine, filePath, sourceFile, sourceOffset, receivedAt, now, settings, lib).dataJson == None
  {
    ResolveAbsent(obj, TsAliases);
    ResolveFirstMatch(obj, MessageAliases, 0);
    ResolveFirstMatch(obj, HttpStatusAliases, 0);
    ExampleFields(obj, lib);
    KeyOutsideExample(obj, "data");
    NoDataNoPayload(obj, rawLine, filePath, sourceFile, sourceOffset, receivedAt, now, settings, lib);
  }

  /** Helper for `UnreadKeyIsNotPayload`: the example object has no
      `data` key. */
  lemma KeyOutsideExample(obj: map<string, Json>, key: string)
    requires obj.Keys == {"msg", "status", "extra"}
    requires key == "data"
    ensures key !in obj
  {
    assert key[0] != "msg"[0] && key[0] != "status"[0] && key[0] != "extra"[0];
  }

  /** The `msg` and `status` of the example line give message `hi` and
      status 404. */
  lemma ExampleFields(obj: map<string, Json>, lib: Lib)
    requires Resolve(obj, MessageAliases) == Some(JString("hi"))
    requires Resolve(obj, HttpStatusAliases) == Some(JString("404"))
    requires Validate(obj, lib).Ok?
    ensures Validate(obj, lib).value.message == Some("hi")
    ensures Validate(obj, lib).value.httpStatus == Some(404)
  {
    HiText(lib);
    IntegerText404();
    SoftIntOfIntegerText(404);
  }

  /** Helper for `ExampleFields`: `"hi"` normalises to itself. */
  lemma HiText(lib: Lib)
    ensures TextNormalize(Some(JString("hi")), lib) == Some("hi")
  {
    var s := "hi";
    assert s[0] == 'h' && s[|s| - 1] == 'i';
    TextNormalizeKeepsStrippedText(s, lib);
  }
}
