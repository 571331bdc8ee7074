/** The small helpers of the ingest path (`ingest/utils.py`): where to resume
    reading a file, text capping, line decoding, the app label taken from a
    file's location, the UTC suffix rewrite and the null-tolerant JSON dump. */
module IngestUtils {
  import opened Wrappers
  import opened Text
  import opened Library

  /** Where the tail reader resumes. A known identity that differs from the
      file's current one (rotation) or a saved offset beyond the current size
      (truncation) restarts at 0; an unknown saved identity never does. */
  function ComputeStartOffset(savedOffset: int, savedInode: Option<int>, inode: int, size: nat): (start: int)
    ensures savedInode.Some? && savedInode.value != inode ==> start == 0
    ensures savedOffset > size ==> start == 0
    ensures (savedInode.None? || savedInode.value == inode) && savedOffset <= size ==> start == savedOffset
    ensures 0 <= savedOffset ==> 0 <= start <= size
  {
    if savedInode.Some? && savedInode.value != inode then 0
    else if savedOffset > size then 0
    else savedOffset
  }

  /** Caps a text value at `maxLen` characters (no cap when `maxLen <= 0`),
      optionally stripping it first and optionally turning an empty value into
      `None`. The result is always a prefix of the (stripped) input. */
  function CapText(value: Option<string>, maxLen: int, strip: bool, emptyToNone: bool): (r: Option<string>)
    ensures value.None? ==> r.None?
    ensures value.Some? ==>
      var v := if strip then Strip(value.value) else value.value;
      && (r.None? <==> emptyToNone && v == [])
      && (r.Some? ==> IsPrefix(r.value, v))
      && (r.Some? && maxLen > 0 ==> |r.value| == if |v| <= maxLen then |v| else maxLen)
      && (r.Some? && maxLen <= 0 ==> r.value == v)
  {
    if value.None? then None
    else
      var v := if strip then Strip(value.value) else value.value;
      if emptyToNone && v == [] then None
      else if maxLen <= 0 then Some(v)
      else if |v| <= maxLen then Some(v)
      else Some(v[..maxLen])
  }

  predicate IsLineBreak(c: char) {
    c == '\r' || c == '\n'
  }

  /** `str.rstrip("\r\n")`: drops every trailing carriage return and line feed. */
  function RStripLineBreaks(s: string): (r: string)
    ensures IsPrefix(r, s)
    ensures r == [] || !IsLineBreak(r[|r| - 1])
    ensures forall i | |r| <= i < |s| :: IsLineBreak(s[i])
  {
    if s != [] && IsLineBreak(s[|s| - 1]) then RStripLineBreaks(s[..|s| - 1]) else s
  }

  /** Lossy UTF-8 decoding of a raw line, with its line ending removed. */
  function DecodeJsonlLine(line: seq<byte>, lib: Lib): (r: string)
    ensures r == [] || !IsLineBreak(r[|r| - 1])
    ensures IsPrefix(r, lib.decodeUtf8(line))
  {
    RStripLineBreaks(lib.decodeUtf8(line))
  }

  /** The name of the immediate parent directory of a resolved path given as
      its segments; empty for a path directly under the filesystem root. */
  function ParentName(path: seq<string>): string {
    if |path| >= 2 then path[|path| - 2] else ""
  }

  /** The app label derived from a file's location: the first segment below
      the log root, `None` for the root itself, and for a file outside the
      root the parent directory's name (`None` when that name is empty).
      Both paths are resolved and given as their segments. */
  function AppFromPath(logRoot: seq<string>, filePath: seq<string>): (r: Option<string>)
    ensures IsPrefix(logRoot, filePath) && |filePath| > |logRoot| ==> r == Some(filePath[|logRoot|])
    ensures filePath == logRoot ==> r == None
    ensures !IsPrefix(logRoot, filePath) ==> (r.None? <==> ParentName(filePath) == "")
    ensures !IsPrefix(logRoot, filePath) && r.Some? ==> r.value == ParentName(filePath)
  {
    if IsPrefix(logRoot, filePath) then
      if |filePath| == |logRoot| then None else Some(filePath[|logRoot|])
    else
      var parent := ParentName(filePath);
      if parent == "" then None else Some(parent)
  }

  /** Every file stored below `root/app/` is labelled `app`. */
  lemma AppOfFileUnderApp(logRoot: seq<string>, app: string, rest: seq<string>)
    ensures AppFromPath(logRoot, logRoot + [app] + rest) == Some(app)
  {
    var p := logRoot + [app] + rest;
    assert p[..|logRoot|] == logRoot;
  }

  const UtcOffsetSuffix := "+00:00"

  /** The last step of rendering a UTC datetime: a trailing `+00:00` becomes `Z`. */
  function DtToUtcRfc3339Z(iso: string): (r: string)
    ensures !EndsWith(r, UtcOffsetSuffix)
    ensures EndsWith(iso, UtcOffsetSuffix) ==> EndsWith(r, "Z") && r[..|r| - 1] == iso[..|iso| - 6]
    ensures !EndsWith(iso, UtcOffsetSuffix) ==> r == iso
  {
    if EndsWith(iso, UtcOffsetSuffix) then
      var r := iso[..|iso| - 6] + "Z";
      assert r[|r| - 1] == 'Z' && UtcOffsetSuffix[5] == '0';
      r
    else iso
  }

  /** Compact JSON text of a side payload; no payload gives no text. */
  function SafeJsonDumps(value: Option<Json>, lib: Lib): (r: Option<string>)
    ensures value.None? ==> r.None?
    ensures value.Some? ==> r == lib.dumps(value.value)
  {
    if value.None? then None else lib.dumps(value.value)
  }
}
