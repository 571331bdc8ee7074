/** The parts of Python's standard library and of Pydantic that the ingest
    path calls but that this model does not re-implement: JSON decoding and
    encoding, lossy UTF-8 decoding, float parsing and printing, and datetime
    parsing. Each one is a field of `Lib`, so every operation that needs one
    receives it as a parameter and every property proved holds for any
    behaviour of that library function. */
module Library {
  import opened Wrappers

  newtype byte = b: int | 0 <= b < 256

  /** The line terminator the tail reader splits on. */
  const NL: byte := 10

  /** A value produced by `json.loads`. Objects are maps: `json.loads` keeps
      the last of duplicated keys, and the order of the keys is not kept,
      although `json.dumps` writes them in that order. Floats are finite:
      `NaN` and infinities are not values here. */
  datatype Json =
    | JNull
    | JBool(b: bool)
    | JInt(i: int)
    | JFloat(f: real)
    | JString(s: string)
    | JArray(items: seq<Json>)
    | JObject(members: map<string, Json>)

  datatype Lib = Lib(
    /** `json.loads(line)`; `None` when it raises `JSONDecodeError` or `UnicodeDecodeError`. */
    loads: seq<byte> -> Option<Json>,
    /** `json.dumps(v, ensure_ascii=False, separators=(",", ":"))`; `None` when it raises `TypeError`. */
    dumps: Json -> Option<string>,
    /** `bytes.decode("utf-8", errors="replace")`. */
    decodeUtf8: seq<byte> -> string,
    /** `str(f)` for a float. */
    floatRepr: real -> string,
    /** `float(v)`; `None` when it raises `TypeError` or `ValueError`. */
    toFloat: Json -> Option<real>,
    /** Pydantic's coercion of a JSON value to an aware UTC `datetime`, rendered with
        `isoformat(timespec="microseconds")`; `None` when validation fails. */
    parseDateTime: Json -> Option<string>,
    /** `datetime.fromisoformat(s)` converted to UTC and rendered like `parseDateTime`;
        `None` when it raises `ValueError`. */
    fromIsoFormat: string -> Option<string>
  )
}
