/** The resumable line reader (`ingest/tail.py`): from the checkpointed
    offset it reads complete `'\n'`-terminated lines, classifies each one and
    turns the valid ones into events, never consuming a trailing partial
    line. */
module Tail {
  import opened Wrappers
  import opened Library
  import opened Schemas
  import opened IngestUtils
  import opened Incoming
  import opened Normalize
  import opened FileOffsets

  /** What `stat` and `open` see at a path: nothing, or a file with an inode
      and its bytes (the size is the length of the bytes). */
  datatype FileState = Missing | Present(inode: int, content: seq<byte>)

  /** A log file: its checkpoint key (the resolved path as text), the same
      path as segments, and what is on disk. */
  datatype LogFile = LogFile(key: string, segments: seq<string>, state: FileState)

  /** The bytes `bytes.strip()` removes: space, tab, LF, VT, FF and CR. */
  predicate IsAsciiSpace(b: byte) {
    b == 32 || 9 <= b <= 13
  }

  predicate IsBlankLine(line: seq<byte>) {
    forall i | 0 <= i < |line| :: IsAsciiSpace(line[i])
  }

  /** Why a complete line produces no event. */
  datatype Rejection = Blank | BadJson | NotObject | Invalid

  /** How one complete line is handled. */
  datatype LineKind<I> = Rejected(reason: Rejection) | Valid(incoming: I)

  /** Blank, then JSON decoding, then the object check, then validation. */
  function Classify(line: seq<byte>, lib: Lib): (k: LineKind<IncomingLogEvent>)
    ensures k == Rejected(Blank) <==> IsBlankLine(line)
    ensures k == Rejected(BadJson) <==> !IsBlankLine(line) && lib.loads(line).None?
    ensures k == Rejected(NotObject) <==> !IsBlankLine(line) && lib.loads(line).Some? && !lib.loads(line).value.JObject?
    ensures k.Valid? <==>
      !IsBlankLine(line) && lib.loads(line).Some? && lib.loads(line).value.JObject? &&
      Validate(lib.loads(line).value.members, lib).Ok?
    ensures k.Valid? ==> k.incoming == Validate(lib.loads(line).value.members, lib).value
  {
    if IsBlankLine(line) then Rejected(Blank)
    else match lib.loads(line)
      case None => Rejected(BadJson)
      case Some(j) =>
        if !j.JObject? then Rejected(NotObject)
        else match Validate(j.members, lib)
          case Err(_) => Rejected(Invalid)
          case Ok(incoming) => Valid(incoming)
  }

  /** The counter a rejected line increments. */
  function Counter(stats: Stats, reason: Rejection): int {
    match reason
      case Blank => stats.emptyLines
      case BadJson => stats.jsonErrors
      case NotObject => stats.nonObject
      case Invalid => stats.validationErrors
  }

  /** The rejected lines counted so far, whatever the reason. */
  function Rejections(stats: Stats): int {
    stats.emptyLines + stats.jsonErrors + stats.nonObject + stats.validationErrors
  }

  /** Counting a rejected line. */
  function Count(stats: Stats, reason: Rejection): Stats {
    match reason
      case Blank => stats.(emptyLines := stats.emptyLines + 1)
      case BadJson => stats.(jsonErrors := stats.jsonErrors + 1)
      case NotObject => stats.(nonObject := stats.nonObject + 1)
      case Invalid => stats.(validationErrors := stats.validationErrors + 1)
  }

  /** Counting a rejected line bumps its own counter by one and moves no
      other counter. */
  lemma CountBumpsOneCounter(stats: Stats, reason: Rejection)
    ensures Counter(Count(stats, reason), reason) == Counter(stats, reason) + 1
    ensures forall other | other != reason :: Counter(Count(stats, reason), other) == Counter(stats, other)
    ensures Count(stats, reason).incompleteLines == stats.incompleteLines
    ensures Rejections(Count(stats, reason)) == Rejections(stats) + 1
  {
  }

  /** How the reading loop handles one complete line: how it is classified
      and, when valid, which event it becomes given the line and the offset
      where it starts. */
  datatype LineContext<!I, E> = LineContext(
    classify: seq<byte> -> LineKind<I>,
    build: (I, seq<byte>, nat) -> E)

  /** The reader's line handling for one file: `Classify`, then `BuildEvent`
      with the file's path, the line's start offset and one ingestion clock
      reading as both the reception time and its fallback. */
  function FileContext(file: LogFile, now: string, settings: Settings, lib: Lib): LineContext<IncomingLogEvent, Event> {
    LineContext(
      line => Classify(line, lib),
      (incoming, line, pos) => BuildEvent(incoming, line, file.segments, file.key, pos, Some(now), now, settings, lib))
  }

  /** The events a context builds record, as `sourceOffset`, the offset
      they are given. */
  ghost predicate Stamped<I(!new)>(ctx: LineContext<I, Event>) {
    forall incoming, line, pos: nat :: ctx.build(incoming, line, pos).sourceOffset == pos
  }

  /** The events a context builds name `key` as their source file. */
  ghost predicate Labelled<I(!new)>(ctx: LineContext<I, Event>, key: string) {
    forall incoming, line, pos: nat :: ctx.build(incoming, line, pos).sourceFile == key
  }

  /** The events of `FileContext` carry the file's key and their line's
      offset. */
  lemma FileContextStamps(file: LogFile, now: string, settings: Settings, lib: Lib)
    ensures Stamped(FileContext(file, now, settings, lib))
    ensures Labelled(FileContext(file, now, settings, lib), file.key)
  {
    var ctx := FileContext(file, now, settings, lib);
    forall incoming, line, pos: nat
      ensures ctx.build(incoming, line, pos).sourceOffset == pos && ctx.build(incoming, line, pos).sourceFile == file.key
    {
      var e := BuildEvent(incoming, line, file.segments, file.key, pos, Some(now), now, settings, lib);
      assert ctx.build(incoming, line, pos) == e;
    }
  }

  /** Where the line that starts at `pos` ends: just after the next
      `'\n'`, or at the end of the content when none follows. */
  function LineEnd(content: seq<byte>, pos: nat): (end: nat)
    requires pos <= |content|
    ensures pos <= end <= |content|
    ensures pos < |content| ==> pos < end
    decreases |content| - pos
  {
    if pos == |content| then pos
    else if content[pos] == NL then pos + 1
    else LineEnd(content, pos + 1)
  }

  /** What `readline` returns at `pos`: the bytes up to and including the
      next `'\n'`, or up to the end when there is none; empty only at the
      end. */
  function LineOf(content: seq<byte>, pos: nat): seq<byte>
    requires pos <= |content|
  {
    content[pos..LineEnd(content, pos)]
  }

  /** The line at `pos` ends with `'\n'`. */
  predicate Complete(content: seq<byte>, pos: nat)
    requires pos < |content|
  {
    content[LineEnd(content, pos) - 1] == NL
  }

  /** What a read produced: the events, the offset to checkpoint and the
      counters. */
  datatype ScanResult<E> = ScanResult(events: seq<E>, offset: nat, stats: Stats)

  /** The events and counters after one more complete line. */
  datatype Tally<E> = Tally(events: seq<E>, stats: Stats)

  /** Handling one complete line that starts at `pos`: a rejected line bumps
      its counter, a valid one adds the event built from it. */
  function Record<I, E>(ctx: LineContext<I, E>, line: seq<byte>, pos: nat, events: seq<E>, stats: Stats): Tally<E> {
    match ctx.classify(line)
      case Rejected(reason) => Tally(events, Count(stats, reason))
      case Valid(incoming) => Tally(events + [ctx.build(incoming, line, pos)], stats)
  }

  /** The reading loop as a function: a read that has reached `pos` with
      `events` and `stats` so far. It stops once `maxEvents` events are
      there, at end of file, or at a final line without `'\n'`, which is
      counted and not consumed; otherwise it records the line and goes on
      after it. */
  function ReadFrom<I, E>(content: seq<byte>, pos: nat, maxEvents: int, ctx: LineContext<I, E>,
                    events: seq<E>, stats: Stats): (r: ScanResult<E>)
    requires pos <= |content|
    ensures pos <= r.offset <= |content|
    decreases |content| - pos
  {
    if |events| >= maxEvents || pos == |content| then ScanResult(events, pos, stats)
    else if !Complete(content, pos) then ScanResult(events, pos, stats.(incompleteLines := stats.incompleteLines + 1))
    else
      var t := Record(ctx, LineOf(content, pos), pos, events, stats);
      ReadFrom(content, LineEnd(content, pos), maxEvents, ctx, t.events, t.stats)
  }

  /** The checkpointed offset: 0 without a row or without an offset. */
  function SavedOffset(row: Option<FileOffsetRow>): (offset: nat)
    ensures row.Some? && row.value.offset.Some? ==> offset == row.value.offset.value
    ensures row.None? || row.value.offset.None? ==> offset == 0
  {
    if row.None? || row.value.offset.None? then 0 else row.value.offset.value
  }

  /** The checkpointed inode: unknown without a row. */
  function SavedInode(row: Option<FileOffsetRow>): (inode: Option<int>)
    ensures row.None? ==> inode.None?
    ensures row.Some? ==> inode == row.value.inode
  {
    if row.None? then None else row.value.inode
  }

  /** Where reading resumes in a file that exists. */
  function StartOffset(row: Option<FileOffsetRow>, inode: int, content: seq<byte>): (start: nat)
    ensures start <= |content|
    ensures start == ComputeStartOffset(SavedOffset(row), SavedInode(row), inode, |content|)
  {
    ComputeStartOffset(SavedOffset(row), SavedInode(row), inode, |content|)
  }

  /** `read_new_lines_since_last_offset` as a function of the checkpoint row,
      the file and the line handling `ctx` (the source's is `FileContext`):
      a missing file yields nothing and keeps the saved offset; an existing
      one is read from its start offset and reports its inode. */
  function TailOf(row: Option<FileOffsetRow>, file: LogFile, maxEvents: int, ctx: LineContext<IncomingLogEvent, Event>): (r: TailResult)
    ensures file.state.Missing? ==> r == TailResult([], SavedOffset(row), None, NoStats)
    ensures file.state.Present? ==> r.inode == Some(file.state.inode)
  {
    match file.state
      case Missing => TailResult([], SavedOffset(row), None, NoStats)
      case Present(inode, content) =>
        var s := ReadFrom(content, StartOffset(row, inode, content), maxEvents, ctx, [], NoStats);
        TailResult(s.events, s.offset, Some(inode), s.stats)
  }

  /** The offset a tail call returns lies between its start offset and the
      end of the file, at a line boundary; at most `maxEvents` events come
      back; reading from the end yields nothing. */
  lemma TailBounds(row: Option<FileOffsetRow>, file: LogFile, maxEvents: int, ctx: LineContext<IncomingLogEvent, Event>)
    requires file.state.Present?
    ensures var r := TailOf(row, file, maxEvents, ctx);
      var content := file.state.content;
      var start := StartOffset(row, file.state.inode, content);
      && start <= r.newOffset <= |content|
      && AtLineStart(content, start, r.newOffset)
      && |r.events| <= (if maxEvents < 0 then 0 else maxEvents)
      && (start == |content| ==> r.events == [] && r.newOffset == start && r.stats == NoStats)
  {
    var content := file.state.content;
    var start := StartOffset(row, file.state.inode, content);
    ScanBounds(content, start, maxEvents, ctx);
  }

  /** The counters of a tail call are never negative; a partial final line
      is counted at most once and only when it is all that is left; the call
      stops only at end of file, on a full batch or at that partial line. */
  lemma TailCounters(row: Option<FileOffsetRow>, file: LogFile, maxEvents: int, ctx: LineContext<IncomingLogEvent, Event>)
    requires file.state.Present?
    ensures var r := TailOf(row, file, maxEvents, ctx);
      var content := file.state.content;
      && r.stats.emptyLines >= 0 && r.stats.jsonErrors >= 0 && r.stats.nonObject >= 0 && r.stats.validationErrors >= 0
      && 0 <= r.stats.incompleteLines <= 1
      && (r.stats.incompleteLines == 1 ==> forall j | r.newOffset <= j < |content| :: content[j] != NL)
      && (r.newOffset == |content| || |r.events| >= maxEvents || r.stats.incompleteLines == 1)
  {
    var content := file.state.content;
    var start := StartOffset(row, file.state.inode, content);
    ScanCounters(content, start, maxEvents, ctx);
  }

  /** Each event of a tail call names the file it came from and carries, as
      its source offset, the start of the line it was built from: a line
      start inside the range the call consumed. */
  lemma TailEventOffsets(row: Option<FileOffsetRow>, file: LogFile, maxEvents: int, ctx: LineContext<IncomingLogEvent, Event>)
    requires file.state.Present?
    requires Stamped(ctx)
    requires Labelled(ctx, file.key)
    ensures var r := TailOf(row, file, maxEvents, ctx);
      var content := file.state.content;
      var start := StartOffset(row, file.state.inode, content);
      forall i | 0 <= i < |r.events| ::
        && r.events[i].sourceFile == file.key
        && start <= r.events[i].sourceOffset < r.newOffset
        && AtLineStart(content, start, r.events[i].sourceOffset)
  {
    var content := file.state.content;
    var start := StartOffset(row, file.state.inode, content);
    var s := ReadFrom(content, start, maxEvents, ctx, [], NoStats);
    ReadFromOffsets(content, start, maxEvents, ctx, [], NoStats);
    ReadFromLineStarts(content, start, maxEvents, ctx, [], NoStats);
    ReadFromEventsAreLines(content, start, maxEvents, ctx, [], NoStats);
    assert s == ReadFrom(content, start, maxEvents, ctx, [], NoStats);
    forall i | 0 <= i < |s.events|
      ensures s.events[i].sourceFile == file.key
      ensures start <= s.events[i].sourceOffset < s.offset
      ensures AtLineStart(content, start, s.events[i].sourceOffset)
    {
      var o := s.events[i].sourceOffset;
      assert s.events[i] == ctx.build(ctx.classify(LineOf(content, o)).incoming, LineOf(content, o), o);
    }
  }

  /** Each event of a tail call was built from a complete line of the file,
      one that the line classifier accepted, exactly as the per-line
      builder makes it. */
  lemma TailEventLines(row: Option<FileOffsetRow>, file: LogFile, maxEvents: int, ctx: LineContext<IncomingLogEvent, Event>)
    requires file.state.Present?
    requires Stamped(ctx)
    ensures var r := TailOf(row, file, maxEvents, ctx);
      forall i | 0 <= i < |r.events| :: BuiltFromLine(file.state.content, ctx, r.events[i])
  {
    var content := file.state.content;
    var start := StartOffset(row, file.state.inode, content);
    var s := ReadFrom(content, start, maxEvents, ctx, [], NoStats);
    assert TailOf(row, file, maxEvents, ctx).events == s.events;
    ReadFromEventsAreLines(content, start, maxEvents, ctx, [], NoStats);
    assert s == ReadFrom(content, start, maxEvents, ctx, [], NoStats);
  }

  /** The events of a tail call come in file order: their source offsets
      strictly increase. */
  lemma TailEventsOrdered(row: Option<FileOffsetRow>, file: LogFile, maxEvents: int, ctx: LineContext<IncomingLogEvent, Event>)
    requires file.state.Present?
    requires Stamped(ctx)
    ensures var r := TailOf(row, file, maxEvents, ctx);
      forall i, j | 0 <= i < j < |r.events| :: r.events[i].sourceOffset < r.events[j].sourceOffset
  {
    var content := file.state.content;
    var s := ReadFrom(content, StartOffset(row, file.state.inode, content), maxEvents, ctx, [], NoStats);
    assert TailOf(row, file, maxEvents, ctx).events == s.events;
    ReadFromOrdered(content, StartOffset(row, file.state.inode, content), maxEvents, ctx, [], NoStats);
    assert s == ReadFrom(content, StartOffset(row, file.state.inode, content), maxEvents, ctx, [], NoStats);
  }

  /** Every complete line between the start offset and the returned offset
      is accounted for exactly once: as an event or under one of the four
      rejection counters. */
  lemma TailAccounting(row: Option<FileOffsetRow>, file: LogFile, maxEvents: int, ctx: LineContext<IncomingLogEvent, Event>)
    requires file.state.Present?
    ensures var r := TailOf(row, file, maxEvents, ctx);
      var content := file.state.content;
      var start := StartOffset(row, file.state.inode, content);
      && start <= r.newOffset <= |content|
      && |r.events| + Rejections(r.stats) == NewlinesBetween(content, start, r.newOffset)
  {
    var content := file.state.content;
    var start := StartOffset(row, file.state.inode, content);
    ReadFromAccounting(content, start, maxEvents, ctx, [], NoStats);
  }

  /** `read_new_lines_since_last_offset`: it looks the checkpoint up, returns
      at once for a missing file, otherwise seeks to the start offset and
      reads from there. */
  method ReadNewLinesSinceLastOffset(
    table: FileOffsetTable, file: LogFile, maxEvents: int, ctx: LineContext<IncomingLogEvent, Event>)
    returns (r: TailResult)
    ensures r == TailOf(table.GetOffset(file.key), file, maxEvents, ctx)
  {
    var stats := NoStats;
    var row := table.GetOffset(file.key);
    var savedOffset := if row.None? || row.value.offset.None? then 0 else row.value.offset.value;
    var savedInode := if row.None? then None else row.value.inode;

    if file.state.Missing? {
      return TailResult([], savedOffset, None, stats);
    }

    var inode := file.state.inode;
    var content := file.state.content;
    var size := |content|;
    var startOffset: nat := ComputeStartOffset(savedOffset, savedInode, inode, size);
    var events, newOffset;
    events, newOffset, stats := ReadLines(content, startOffset, maxEvents, ctx);
    return TailResult(events, newOffset, Some(inode), stats);
  }

  /** The reading loop of the tail reader: from `startOffset` it reads line
      by line until the batch is full, the file ends, or a partial line is
      met, which it counts and leaves unconsumed. */
  method ReadLines<I, E>(content: seq<byte>, startOffset: nat, maxEvents: int, ctx: LineContext<I, E>)
    returns (events: seq<E>, newOffset: nat, stats: Stats)
    requires startOffset <= |content|
    ensures ReadFrom(content, startOffset, maxEvents, ctx, [], NoStats) == ScanResult(events, newOffset, stats)
  {
    stats := NoStats;
    events := [];
    newOffset := startOffset;
    var currentLineStartOffset: nat := startOffset;
    ghost var whole := ReadFrom(content, startOffset, maxEvents, ctx, [], NoStats);

    // The file position is `currentLineStartOffset` at the top of each turn.
    while true
      invariant newOffset == currentLineStartOffset <= |content|
      invariant ReadFrom(content, newOffset, maxEvents, ctx, events, stats) == whole
      decreases |content| - currentLineStartOffset
    {
      if |events| >= maxEvents {
        ReadFromStopsHere(content, currentLineStartOffset, maxEvents, ctx, events, stats);
        break;
      }
      var line := LineOf(content, currentLineStartOffset);
      if |line| == 0 {
        ReadFromStopsHere(content, currentLineStartOffset, maxEvents, ctx, events, stats);
        break;  // end of file
      }
      var lineEndOffset := currentLineStartOffset + |line|;
      if line[|line| - 1] != NL {
        // the file position goes back to `currentLineStartOffset`
        PartialLineStop(content, currentLineStartOffset, maxEvents, ctx, events, stats);
        stats := stats.(incompleteLines := stats.incompleteLines + 1);
        break;
      }
      CompleteLineStep(content, currentLineStartOffset, maxEvents, ctx, events, stats);
      match ctx.classify(line) {
        case Rejected(reason) =>
          stats := Count(stats, reason);
        case Valid(incoming) =>
          events := events + [ctx.build(incoming, line, currentLineStartOffset)];
      }
      newOffset := lineEndOffset;
      currentLineStartOffset := lineEndOffset;
    }
  }

  /** A read that starts with a full batch or at end of file returns what
      it has. */
  lemma ReadFromStopsHere<I, E>(content: seq<byte>, pos: nat, maxEvents: int, ctx: LineContext<I, E>,
                                events: seq<E>, stats: Stats)
    requires pos <= |content|
    requires |events| >= maxEvents || pos == |content|
    ensures ReadFrom(content, pos, maxEvents, ctx, events, stats) == ScanResult(events, pos, stats)
  {
  }

  /** A read that meets a partial line counts it and stops before it. */
  lemma PartialLineStop<I, E>(content: seq<byte>, pos: nat, maxEvents: int, ctx: LineContext<I, E>,
                              events: seq<E>, stats: Stats)
    requires pos < |content| && |events| < maxEvents && !Complete(content, pos)
    ensures ReadFrom(content, pos, maxEvents, ctx, events, stats)
         == ScanResult(events, pos, stats.(incompleteLines := stats.incompleteLines + 1))
  {
  }

  /** A complete line is recorded and the read goes on after it. */
  lemma CompleteLineStep<I, E>(content: seq<byte>, pos: nat, maxEvents: int, ctx: LineContext<I, E>,
                               events: seq<E>, stats: Stats)
    requires pos < |content| && |events| < maxEvents && Complete(content, pos)
    ensures var t := Record(ctx, LineOf(content, pos), pos, events, stats);
      ReadFrom(content, pos, maxEvents, ctx, events, stats)
        == ReadFrom(content, LineEnd(content, pos), maxEvents, ctx, t.events, t.stats)
  {
  }

  /** A read only moves forward and stops at a line boundary inside the
      file. */
  lemma {:induction false} ReadFromAdvances<I, E>(content: seq<byte>, pos: nat, maxEvents: int, ctx: LineContext<I, E>,
                                            events: seq<E>, stats: Stats)
    requires pos <= |content|
    ensures var r := ReadFrom(content, pos, maxEvents, ctx, events, stats);
      && pos <= r.offset <= |content|
      && (r.offset == pos || content[r.offset - 1] == NL)
    decreases |content| - pos
  {
    if |events| < maxEvents && pos < |content| && Complete(content, pos) {
      var t := Record(ctx, LineOf(content, pos), pos, events, stats);
      CompleteLineStep(content, pos, maxEvents, ctx, events, stats);
      ReadFromAdvances(content, LineEnd(content, pos), maxEvents, ctx, t.events, t.stats);
    }
  }

  /** A read keeps the events it started with and adds at most up to
      `maxEvents`; one that starts with a full batch changes nothing. */
  lemma {:induction false} ReadFromBatch<I, E>(content: seq<byte>, pos: nat, maxEvents: int, ctx: LineContext<I, E>,
                                         events: seq<E>, stats: Stats)
    requires pos <= |content|
    ensures var r := ReadFrom(content, pos, maxEvents, ctx, events, stats);
      && |events| <= |r.events| && r.events[..|events|] == events
      && (|events| < maxEvents ==> |r.events| <= maxEvents)
      && (|events| >= maxEvents ==> r == ScanResult(events, pos, stats))
    decreases |content| - pos
  {
    if |events| < maxEvents && pos < |content| && Complete(content, pos) {
      var next := LineEnd(content, pos);
      var t := Record(ctx, LineOf(content, pos), pos, events, stats);
      assert |t.events| <= |events| + 1 && t.events[..|events|] == events;
      CompleteLineStep(content, pos, maxEvents, ctx, events, stats);
      ReadFromBatch(content, next, maxEvents, ctx, t.events, t.stats);
      var r := ReadFrom(content, next, maxEvents, ctx, t.events, t.stats);
      assert r == ReadFrom(content, pos, maxEvents, ctx, events, stats);
      assert r.events[..|events|] == r.events[..|t.events|][..|events|];
    }
  }

  /** A read never lowers a counter and counts at most one partial line. */
  lemma {:induction false} ReadFromCounters<I, E>(content: seq<byte>, pos: nat, maxEvents: int, ctx: LineContext<I, E>,
                                            events: seq<E>, stats: Stats, reason: Rejection)
    requires pos <= |content|
    ensures var r := ReadFrom(content, pos, maxEvents, ctx, events, stats);
      && Counter(stats, reason) <= Counter(r.stats, reason)
      && stats.incompleteLines <= r.stats.incompleteLines <= stats.incompleteLines + 1
    decreases |content| - pos
  {
    if |events| < maxEvents && pos < |content| && Complete(content, pos) {
      var t := Record(ctx, LineOf(content, pos), pos, events, stats);
      RecordCounts(ctx, LineOf(content, pos), pos, events, stats);
      CompleteLineStep(content, pos, maxEvents, ctx, events, stats);
      ReadFromCounters(content, LineEnd(content, pos), maxEvents, ctx, t.events, t.stats, reason);
    }
  }

  /** A read counts a partial line only when no `'\n'` follows the offset it
      returns, which is then inside the file. */
  lemma {:induction false} ReadFromPartialLine<I, E>(content: seq<byte>, pos: nat, maxEvents: int, ctx: LineContext<I, E>,
                                               events: seq<E>, stats: Stats)
    requires pos <= |content|
    ensures var r := ReadFrom(content, pos, maxEvents, ctx, events, stats);
      r.stats.incompleteLines != stats.incompleteLines ==>
        r.offset < |content| && forall j | r.offset <= j < |content| :: content[j] != NL
    decreases |content| - pos
  {
    if |events| < maxEvents && pos < |content| {
      if !Complete(content, pos) {
        PartialLineIsRest(content, pos);
      } else {
        var t := Record(ctx, LineOf(content, pos), pos, events, stats);
        RecordCounts(ctx, LineOf(content, pos), pos, events, stats);
        CompleteLineStep(content, pos, maxEvents, ctx, events, stats);
        ReadFromPartialLine(content, LineEnd(content, pos), maxEvents, ctx, t.events, t.stats);
      }
    }
  }

  /** A read stops only at end of file, on a full batch, or at a partial
      line. */
  lemma {:induction false} ReadFromStops<I, E>(content: seq<byte>, pos: nat, maxEvents: int, ctx: LineContext<I, E>,
                                         events: seq<E>, stats: Stats)
    requires pos <= |content|
    ensures var r := ReadFrom(content, pos, maxEvents, ctx, events, stats);
      r.offset == |content| || |r.events| >= maxEvents || r.stats.incompleteLines != stats.incompleteLines
    decreases |content| - pos
  {
    if |events| < maxEvents && pos < |content| && Complete(content, pos) {
      var t := Record(ctx, LineOf(content, pos), pos, events, stats);
      RecordCounts(ctx, LineOf(content, pos), pos, events, stats);
      CompleteLineStep(content, pos, maxEvents, ctx, events, stats);
      ReadFromStops(content, LineEnd(content, pos), maxEvents, ctx, t.events, t.stats);
    }
  }

  /** Recording a line leaves the partial-line count alone and adds one to
      the events plus the rejection counters. */
  lemma RecordCounts<I, E>(ctx: LineContext<I, E>, line: seq<byte>, pos: nat, events: seq<E>, stats: Stats)
    ensures var t := Record(ctx, line, pos, events, stats);
      && t.stats.incompleteLines == stats.incompleteLines
      && (|t.events| - |events|) + (Rejections(t.stats) - Rejections(stats)) == 1
      && forall reason :: Counter(stats, reason) <= Counter(t.stats, reason)
  {
    if ctx.classify(line).Rejected? {
      CountBumpsOneCounter(stats, ctx.classify(line).reason);
    }
  }

  /** Every event a read adds starts between where the read started and
      where it stopped. */
  lemma {:induction false} ReadFromOffsets<I(!new)>(content: seq<byte>, pos: nat, maxEvents: int, ctx: LineContext<I, Event>,
                                           events: seq<Event>, stats: Stats)
    requires pos <= |content|
    requires Stamped(ctx)
    ensures var r := ReadFrom(content, pos, maxEvents, ctx, events, stats);
      && pos <= r.offset <= |content|
      && forall i | |events| <= i < |r.events| ::
           pos <= r.events[i].sourceOffset < r.offset
    decreases |content| - pos
  {
    ReadFromAdvances(content, pos, maxEvents, ctx, events, stats);
    if |events| < maxEvents && pos < |content| && Complete(content, pos) {
      var next := LineEnd(content, pos);
      var t := Record(ctx, LineOf(content, pos), pos, events, stats);
      CompleteLineStep(content, pos, maxEvents, ctx, events, stats);
      ReadFromOffsets(content, next, maxEvents, ctx, t.events, t.stats);
      ReadFromBatch(content, next, maxEvents, ctx, t.events, t.stats);
      var r := ReadFrom(content, next, maxEvents, ctx, t.events, t.stats);
      assert r == ReadFrom(content, pos, maxEvents, ctx, events, stats);
      forall i | |events| <= i < |t.events|
        ensures pos <= r.events[i].sourceOffset < r.offset
      {
        assert r.events[i] == r.events[..|t.events|][i] == t.events[i];
      }
    }
  }

  /** `o` is where the read started or just after a `'\n'`. */
  predicate AtLineStart(content: seq<byte>, start: nat, o: int) {
    o == start || (0 < o <= |content| && content[o - 1] == NL)
  }

  /** Every event a read adds starts at a line boundary. */
  lemma {:induction false} ReadFromLineStarts<I(!new)>(content: seq<byte>, pos: nat, maxEvents: int, ctx: LineContext<I, Event>,
                                              events: seq<Event>, stats: Stats)
    requires pos <= |content|
    requires Stamped(ctx)
    ensures var r := ReadFrom(content, pos, maxEvents, ctx, events, stats);
      forall i | |events| <= i < |r.events| :: AtLineStart(content, pos, r.events[i].sourceOffset)
    decreases |content| - pos
  {
    if |events| < maxEvents && pos < |content| && Complete(content, pos) {
      var next := LineEnd(content, pos);
      var t := Record(ctx, LineOf(content, pos), pos, events, stats);
      CompleteLineStep(content, pos, maxEvents, ctx, events, stats);
      ReadFromLineStarts(content, next, maxEvents, ctx, t.events, t.stats);
      ReadFromBatch(content, next, maxEvents, ctx, t.events, t.stats);
      var r := ReadFrom(content, next, maxEvents, ctx, t.events, t.stats);
      assert r == ReadFrom(content, pos, maxEvents, ctx, events, stats);
      forall i | |events| <= i < |r.events|
        ensures AtLineStart(content, pos, r.events[i].sourceOffset)
      {
        if i < |t.events| {
          assert r.events[i] == r.events[..|t.events|][i] == t.events[i];
        }
      }
    }
  }

  /** The events a read adds come in strictly increasing offset order. */
  lemma {:induction false} ReadFromOrdered<I(!new)>(content: seq<byte>, pos: nat, maxEvents: int, ctx: LineContext<I, Event>,
                                           events: seq<Event>, stats: Stats)
    requires pos <= |content|
    requires Stamped(ctx)
    ensures var r := ReadFrom(content, pos, maxEvents, ctx, events, stats);
      forall i, j | |events| <= i < j < |r.events| :: r.events[i].sourceOffset < r.events[j].sourceOffset
    decreases |content| - pos
  {
    if |events| < maxEvents && pos < |content| && Complete(content, pos) {
      var next := LineEnd(content, pos);
      var t := Record(ctx, LineOf(content, pos), pos, events, stats);
      CompleteLineStep(content, pos, maxEvents, ctx, events, stats);
      ReadFromOrdered(content, next, maxEvents, ctx, t.events, t.stats);
      ReadFromOffsets(content, next, maxEvents, ctx, t.events, t.stats);
      ReadFromBatch(content, next, maxEvents, ctx, t.events, t.stats);
      var r := ReadFrom(content, next, maxEvents, ctx, t.events, t.stats);
      assert r == ReadFrom(content, pos, maxEvents, ctx, events, stats);
      forall i, j | |events| <= i < j < |r.events|
        ensures r.events[i].sourceOffset < r.events[j].sourceOffset
      {
        if i < |t.events| {
          assert r.events[i] == r.events[..|t.events|][i] == t.events[i];
          assert r.events[i].sourceOffset == pos;
          assert next <= r.events[j].sourceOffset;
        }
      }
    }
  }

  /** `e` is the event `ctx` builds from the complete line of `content`
      that starts at `e`'s source offset, a line `ctx` classifies as valid. */
  predicate BuiltFromLine<I>(content: seq<byte>, ctx: LineContext<I, Event>, e: Event) {
    var o := e.sourceOffset;
    && 0 <= o < |content|
    && Complete(content, o)
    && ctx.classify(LineOf(content, o)).Valid?
    && e == ctx.build(ctx.classify(LineOf(content, o)).incoming, LineOf(content, o), o)
  }

  /** Every event a read adds was built from the valid complete line that
      starts at its offset. */
  lemma {:induction false} ReadFromEventsAreLines<I(!new)>(content: seq<byte>, pos: nat, maxEvents: int, ctx: LineContext<I, Event>,
                                                  events: seq<Event>, stats: Stats)
    requires pos <= |content|
    requires Stamped(ctx)
    ensures var r := ReadFrom(content, pos, maxEvents, ctx, events, stats);
      forall i | |events| <= i < |r.events| :: BuiltFromLine(content, ctx, r.events[i])
    decreases |content| - pos
  {
    if |events| < maxEvents && pos < |content| && Complete(content, pos) {
      var next := LineEnd(content, pos);
      var t := Record(ctx, LineOf(content, pos), pos, events, stats);
      CompleteLineStep(content, pos, maxEvents, ctx, events, stats);
      ReadFromEventsAreLines(content, next, maxEvents, ctx, t.events, t.stats);
      ReadFromBatch(content, next, maxEvents, ctx, t.events, t.stats);
      var r := ReadFrom(content, next, maxEvents, ctx, t.events, t.stats);
      assert r == ReadFrom(content, pos, maxEvents, ctx, events, stats);
      forall i | |events| <= i < |t.events|
        ensures BuiltFromLine(content, ctx, r.events[i])
      {
        assert r.events[i] == r.events[..|t.events|][i] == t.events[i];
        assert t.events[i].sourceOffset == pos;
      }
    }
  }

  /** A whole read, from an empty batch and zeroed counters, stops between
      its start and the end of the content at a line boundary, with at most
      `maxEvents` events; started at the end it yields nothing. */
  lemma ScanBounds<I, E>(content: seq<byte>, start: nat, maxEvents: int, ctx: LineContext<I, E>)
    requires start <= |content|
    ensures var r := ReadFrom(content, start, maxEvents, ctx, [], NoStats);
      && start <= r.offset <= |content|
      && AtLineStart(content, start, r.offset)
      && |r.events| <= (if maxEvents < 0 then 0 else maxEvents)
      && (start == |content| ==> r == ScanResult([], start, NoStats))
  {
    ReadFromAdvances(content, start, maxEvents, ctx, [], NoStats);
    ReadFromBatch(content, start, maxEvents, ctx, [], NoStats);
    if start == |content| {
      ReadFromStopsHere(content, start, maxEvents, ctx, [], NoStats);
    }
  }

  /** The counters of a whole read are never negative and count at most one
      partial line, which is then all that is left; the read stops only at
      end of content, on a full batch or at that partial line. */
  lemma ScanCounters<I, E>(content: seq<byte>, start: nat, maxEvents: int, ctx: LineContext<I, E>)
    requires start <= |content|
    ensures var r := ReadFrom(content, start, maxEvents, ctx, [], NoStats);
      && r.stats.emptyLines >= 0 && r.stats.jsonErrors >= 0 && r.stats.nonObject >= 0 && r.stats.validationErrors >= 0
      && 0 <= r.stats.incompleteLines <= 1
      && (r.stats.incompleteLines == 1 ==> forall j | r.offset <= j < |content| :: content[j] != NL)
      && (r.offset == |content| || |r.events| >= maxEvents || r.stats.incompleteLines == 1)
  {
    ReadFromCounters(content, start, maxEvents, ctx, [], NoStats, Blank);
    ReadFromCounters(content, start, maxEvents, ctx, [], NoStats, BadJson);
    ReadFromCounters(content, start, maxEvents, ctx, [], NoStats, NotObject);
    ReadFromCounters(content, start, maxEvents, ctx, [], NoStats, Invalid);
    ReadFromPartialLine(content, start, maxEvents, ctx, [], NoStats);
    ReadFromStops(content, start, maxEvents, ctx, [], NoStats);
  }

  /** A line without a final `'\n'` runs to the end of the content and no
      `'\n'` occurs from its start on. */
  lemma {:induction false} PartialLineIsRest(content: seq<byte>, pos: nat)
    requires pos < |content| && !Complete(content, pos)
    ensures LineEnd(content, pos) == |content|
    ensures forall j | pos <= j < |content| :: content[j] != NL
    decreases |content| - pos
  {
    if pos + 1 < |content| {
      PartialLineIsRest(content, pos + 1);
    }
  }

  /** The number of `'\n'` bytes in `content[from..to]`, that is, the number
      of complete lines there when `from` is a line boundary. */
  function NewlinesBetween(content: seq<byte>, from: nat, to: nat): nat
    requires from <= to <= |content|
    decreases |content| - from
  {
    if from == to then 0 else (if content[from] == NL then 1 else 0) + NewlinesBetween(content, from + 1, to)
  }

  lemma {:induction false} NewlinesSplit(content: seq<byte>, from: nat, mid: nat, to: nat)
    requires from <= mid <= to <= |content|
    ensures NewlinesBetween(content, from, to) == NewlinesBetween(content, from, mid) + NewlinesBetween(content, mid, to)
    decreases mid - from
  {
    if from < mid {
      NewlinesSplit(content, from + 1, mid, to);
    }
  }

  /** A complete line holds exactly one `'\n'`, its last byte. */
  lemma {:induction false} OneNewlinePerLine(content: seq<byte>, pos: nat)
    requires pos < |content| && Complete(content, pos)
    ensures NewlinesBetween(content, pos, LineEnd(content, pos)) == 1
    decreases |content| - pos
  {
    if content[pos] == NL {
      assert NewlinesBetween(content, pos + 1, pos + 1) == 0;
    } else {
      OneNewlinePerLine(content, pos + 1);
    }
  }

  /** Every complete line a read consumes is accounted for exactly once:
      as an event or under one of the four rejection counters. */
  lemma {:induction false} ReadFromAccounting<I, E>(content: seq<byte>, pos: nat, maxEvents: int, ctx: LineContext<I, E>,
                                              events: seq<E>, stats: Stats)
    requires pos <= |content|
    ensures var r := ReadFrom(content, pos, maxEvents, ctx, events, stats);
      pos <= r.offset <= |content| &&
      (|r.events| - |events|) + (Rejections(r.stats) - Rejections(stats)) == NewlinesBetween(content, pos, r.offset)
    decreases |content| - pos
  {
    if |events| < maxEvents && pos < |content| && Complete(content, pos) {
      var next := LineEnd(content, pos);
      var t := Record(ctx, LineOf(content, pos), pos, events, stats);
      RecordCounts(ctx, LineOf(content, pos), pos, events, stats);
      CompleteLineStep(content, pos, maxEvents, ctx, events, stats);
      ReadFromAccounting(content, next, maxEvents, ctx, t.events, t.stats);
      var r := ReadFrom(content, next, maxEvents, ctx, t.events, t.stats);
      assert r == ReadFrom(content, pos, maxEvents, ctx, events, stats);
      OneNewlinePerLine(content, pos);
      NewlinesSplit(content, pos, next, r.offset);
    }
  }

  /** A read that did not stop at a partial line hands over to a read with
      a larger batch that resumes from its offset, events and counters:
      together they are the one read with the larger batch. */
  lemma {:induction false} ReadFromResumes<I, E>(content: seq<byte>, pos: nat, m1: int, m2: int, ctx: LineContext<I, E>,
                                           events: seq<E>, stats: Stats)
    requires pos <= |content| && m1 <= m2
    requires ReadFrom(content, pos, m1, ctx, events, stats).stats.incompleteLines == stats.incompleteLines
    ensures var r1 := ReadFrom(content, pos, m1, ctx, events, stats);
      ReadFrom(content, r1.offset, m2, ctx, r1.events, r1.stats) == ReadFrom(content, pos, m2, ctx, events, stats)
    decreases |content| - pos
  {
    if |events| < m1 && pos < |content| && Complete(content, pos) {
      var t := Record(ctx, LineOf(content, pos), pos, events, stats);
      CompleteLineStep(content, pos, m1, ctx, events, stats);
      CompleteLineStep(content, pos, m2, ctx, events, stats);
      ReadFromResumes(content, LineEnd(content, pos), m1, m2, ctx, t.events, t.stats);
    }
  }

  /** Counting a rejection commutes with adding counters in front. */
  lemma CountShift(a: Stats, b: Stats, reason: Rejection)
    ensures Count(AddStats(a, b), reason) == AddStats(a, Count(b, reason))
  {
  }

  /** A read does not look at the events and counters it starts with: with
      `prefix` in front of the events and `base` added to the counters, it
      reads the same lines, adds the same events and counts the same
      rejections, the batch limit shrinking by the prefix. */
  lemma {:induction false} ReadFromShift<I, E>(content: seq<byte>, pos: nat, maxEvents: int, ctx: LineContext<I, E>,
                                         prefix: seq<E>, events: seq<E>, base: Stats, stats: Stats)
    requires pos <= |content|
    ensures var r := ReadFrom(content, pos, maxEvents - |prefix|, ctx, events, stats);
      ReadFrom(content, pos, maxEvents, ctx, prefix + events, AddStats(base, stats))
        == ScanResult(prefix + r.events, r.offset, AddStats(base, r.stats))
    decreases |content| - pos
  {
    if |prefix + events| < maxEvents && pos < |content| && Complete(content, pos) {
      var line := LineOf(content, pos);
      var t := Record(ctx, line, pos, events, stats);
      var u := Record(ctx, line, pos, prefix + events, AddStats(base, stats));
      match ctx.classify(line) {
        case Rejected(reason) =>
          CountShift(base, stats, reason);
        case Valid(incoming) =>
          assert (prefix + events) + [ctx.build(incoming, line, pos)] == prefix + (events + [ctx.build(incoming, line, pos)]);
      }
      assert u == Tally(prefix + t.events, AddStats(base, t.stats));
      CompleteLineStep(content, pos, maxEvents, ctx, prefix + events, AddStats(base, stats));
      CompleteLineStep(content, pos, maxEvents - |prefix|, ctx, events, stats);
      ReadFromShift(content, LineEnd(content, pos), maxEvents, ctx, prefix, t.events, base, t.stats);
    }
  }

  /** Batches concatenate: a fresh read of at most `m1` events that did not
      stop at a partial line, followed by a fresh read of at most `m2`
      events from the offset it returned, yields the events, the final
      offset and the summed counters of one fresh read of at most
      `m1 + m2` events. */
  lemma ReadFromSplits<I, E>(content: seq<byte>, pos: nat, m1: nat, m2: nat, ctx: LineContext<I, E>)
    requires pos <= |content|
    requires ReadFrom(content, pos, m1, ctx, [], NoStats).stats.incompleteLines == 0
    ensures var r1 := ReadFrom(content, pos, m1, ctx, [], NoStats);
      var r2 := ReadFrom(content, r1.offset, m2, ctx, [], NoStats);
      var whole := ReadFrom(content, pos, m1 + m2, ctx, [], NoStats);
      && r1.events + r2.events == whole.events
      && r2.offset == whole.offset
      && AddStats(r1.stats, r2.stats) == whole.stats
  {
    var r1 := ReadFrom(content, pos, m1, ctx, [], NoStats);
    var whole := ReadFrom(content, pos, m1 + m2, ctx, [], NoStats);
    var rest := ReadFrom(content, r1.offset, m1 + m2 - |r1.events|, ctx, [], NoStats);
    assert ReadFrom(content, r1.offset, m1 + m2, ctx, r1.events, r1.stats) == whole by {
      ReadFromResumes(content, pos, m1, m1 + m2, ctx, [], NoStats);
    }
    assert ReadFrom(content, r1.offset, m1 + m2, ctx, r1.events, r1.stats)
        == ScanResult(r1.events + rest.events, rest.offset, AddStats(r1.stats, rest.stats)) by {
      ReadFromShift(content, r1.offset, m1 + m2, ctx, r1.events, [], r1.stats, NoStats);
      assert r1.events + [] == r1.events;
      assert AddStats(r1.stats, NoStats) == r1.stats;
    }
    FirstReadRest(content, pos, m1, m2, ctx);
  }

  /** What is left of the larger batch after a read of at most `m1` events
      that did not stop at a partial line is a read of at most `m2`. */
  lemma FirstReadRest<I, E>(content: seq<byte>, pos: nat, m1: nat, m2: nat, ctx: LineContext<I, E>)
    requires pos <= |content|
    requires ReadFrom(content, pos, m1, ctx, [], NoStats).stats.incompleteLines == 0
    ensures var r1 := ReadFrom(content, pos, m1, ctx, [], NoStats);
      ReadFrom(content, r1.offset, m1 + m2 - |r1.events|, ctx, [], NoStats) == ReadFrom(content, r1.offset, m2, ctx, [], NoStats)
  {
    var r1 := ReadFrom(content, pos, m1, ctx, [], NoStats);
    ReadFromBatch(content, pos, m1, ctx, [], NoStats);
    if |r1.events| < m1 {
      ReadFromStops(content, pos, m1, ctx, [], NoStats);
      ReadFromStopsHere(content, r1.offset, m2, ctx, [], NoStats);
      ReadFromStopsHere(content, r1.offset, m1 + m2 - |r1.events|, ctx, [], NoStats);
    } else {
      assert m1 + m2 - |r1.events| == m2;
    }
  }

  /** A line that starts where no `'\n'` follows is a partial line. */
  lemma {:induction false} NoNewlineIncomplete(content: seq<byte>, pos: nat)
    requires pos < |content|
    requires forall j | pos <= j < |content| :: content[j] != NL
    ensures !Complete(content, pos)
    decreases |content| - pos
  {
    if pos + 1 < |content| {
      NoNewlineIncomplete(content, pos + 1);
    }
  }

  /** Caught up: a read that stopped at end of file or at a partial line,
      resumed fresh from the offset it returned, with any line handling,
      finds no event and returns the same offset, counting the partial line
      again if there is one. A read that stopped on a full batch is not
      caught up. */
  lemma ReadFromCaughtUp<I, E>(content: seq<byte>, pos: nat, m1: int, m2: int, ctx: LineContext<I, E>, ctx2: LineContext<I, E>,
                               events: seq<E>, stats: Stats)
    requires pos <= |content|
    requires var r1 := ReadFrom(content, pos, m1, ctx, events, stats);
      r1.offset == |content| || r1.stats.incompleteLines != stats.incompleteLines
    ensures var r1 := ReadFrom(content, pos, m1, ctx, events, stats);
      ReadFrom(content, r1.offset, m2, ctx2, [], NoStats)
        == ScanResult([], r1.offset, NoStats.(incompleteLines := if r1.offset < |content| && 0 < m2 then 1 else 0))
  {
    var r1 := ReadFrom(content, pos, m1, ctx, events, stats);
    ReadFromAdvances(content, pos, m1, ctx, events, stats);
    if r1.offset < |content| {
      ReadFromPartialLine(content, pos, m1, ctx, events, stats);
      NoNewlineIncomplete(content, r1.offset);
      if 0 < m2 {
        PartialLineStop(content, r1.offset, m2, ctx2, [], NoStats);
      }
    }
  }

  /** Batches concatenate for the tail reader: when a tail call that did not
      stop at a partial line is followed by one whose checkpoint resumes at
      the offset it returned, the two return the events, the final offset
      and the summed counters of one tail call with both batch sizes
      together. */
  lemma TailResumes(row1: Option<FileOffsetRow>, row2: Option<FileOffsetRow>, file: LogFile, m1: nat, m2: nat,
                    ctx: LineContext<IncomingLogEvent, Event>)
    requires file.state.Present?
    requires TailOf(row1, file, m1, ctx).stats.incompleteLines == 0
    requires StartOffset(row2, file.state.inode, file.state.content) == TailOf(row1, file, m1, ctx).newOffset
    ensures var r1 := TailOf(row1, file, m1, ctx);
      var r2 := TailOf(row2, file, m2, ctx);
      var whole := TailOf(row1, file, m1 + m2, ctx);
      && r1.events + r2.events == whole.events
      && r2.newOffset == whole.newOffset
      && AddStats(r1.stats, r2.stats) == whole.stats
  {
    var content := file.state.content;
    ReadFromSplits(content, StartOffset(row1, file.state.inode, content), m1, m2, ctx);
  }

  /** A second tail call with no new data: after a call that stopped at end
      of file or at a partial line, a call whose checkpoint resumes at the
      offset it returned finds no event and returns the same offset,
      whatever line handling either call uses. */
  lemma TailCaughtUp(row1: Option<FileOffsetRow>, row2: Option<FileOffsetRow>, file: LogFile, m1: int, m2: int,
                     ctx: LineContext<IncomingLogEvent, Event>, ctx2: LineContext<IncomingLogEvent, Event>)
    requires file.state.Present?
    requires var r1 := TailOf(row1, file, m1, ctx);
      r1.newOffset == |file.state.content| || r1.stats.incompleteLines == 1
    requires StartOffset(row2, file.state.inode, file.state.content) == TailOf(row1, file, m1, ctx).newOffset
    ensures var r2 := TailOf(row2, file, m2, ctx2);
      r2.events == [] && r2.newOffset == TailOf(row1, file, m1, ctx).newOffset
  {
    var content := file.state.content;
    ReadFromCaughtUp(content, StartOffset(row1, file.state.inode, content), m1, m2, ctx, ctx2, [], NoStats);
  }
}
