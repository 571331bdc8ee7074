# mini-SIEM ingestion and query core, in Dafny

This project models the ingestion path and the query layer of a small
log SIEM backend. Its parts:

- **Tail reader.** It reads JSON-lines log files from a checkpointed byte
  offset. It splits at `'\n'` and sorts each complete line into one of:
  blank, undecodable JSON, non-object, failed validation, or a valid
  record. It never consumes a trailing partial line. It restarts from
  offset 0 when the file was rotated (new inode) or truncated.
- **Field normalisation.** It turns a validated record into the stored
  `Event`: alias resolution, soft coercions, text normalisation, length
  caps, the app label derived from the path, and the `+00:00` → `Z`
  rewrite.
- **Checkpoint table.** `file_offsets` is keyed by resolved path.
- **Batch step.** One batch tails a file, inserts the events, moves the
  checkpoint when the read progressed, and commits or rolls back.
- **Drain loop.** It repeats batches until the file is caught up or the
  batch budget is spent.
- **Scan pass.** It drains every discovered file. A failing file does not
  stop the pass.
- **Event list query.** It applies the filters, clamps the limit, pages
  with a keyset cursor over `(ts desc, id desc)`, and looks single events
  up by identifier.
- **Application listing.** It lists the application directories under the
  log root.

Modules, one per source file plus shared definitions:

| module | file | models |
|---|---|---|
| `Wrappers` | wrappers.dfy | `Option`, `Result` |
| `Library` | library.dfy | bytes, JSON values, and the library calls the source makes (`json.loads`, `json.dumps`, UTF-8 decoding, datetime and float parsing), passed in as a `Lib` value |
| `Text` | text.dfy | `str.strip`, prefix and substring tests, ASCII case folding, code-point string order |
| `Schemas` | schemas.dfy | `Event`, `Row`, `FileOffsetRow`, `Stats`, `TailResult`, `BatchResult`, `FileResult`, `IngestResult` |
| `IngestUtils` | utils.dfy | `ingest/utils.py` |
| `Incoming` | incoming.dfy | `schemas/incoming.py` |
| `Normalize` | normalize.dfy | `ingest/normalize.py` |
| `FileOffsets` | file_offsets.dfy | `repositories/file_offsets.py` (a class holding the table) |
| `Tail` | tail.dfy | `ingest/tail.py` (a method with the reading loop, proved against the function `ReadFrom`) |
| `Store` | store.dfy | the database session: the `events` table, its autoincrement key, the checkpoint table, commit and rollback (a class) |
| `Batch` | batch.dfy | `ingest/batch.py` (methods proved against `BatchStep` and `Drain`) |
| `Ingest` | ingest.dfy | `ingest/ingest.py` (a method with the per-file loop, proved against `Scan`) |
| `EventsQuery` | events_query.dfy | `handlers/events.py` (filter, order, take over the stored rows) |
| `Metadata` | metadata.dfy | `handlers/metadata.py` (a method with the listing loop, then a stable sort by case-folded name) |

How the system's environment enters the model:

- **Files.** A file is its resolved path (`LogFile.key` and the same path
  as segments) and what `stat` and `open` see there: nothing, or an inode
  and the bytes.
- **Clocks.** Clock readings are parameters, one set per batch. Each
  batch has its own `Batch.Env`: its tail call's reception time
  (`ingest/tail.py:41`) is in its reader, and its checkpoint time stamp
  (`ingest/batch.py:38-43`) is `updatedAt`. The drain takes one `Env` per
  batch number. The pass takes one per file and batch number.
- **Exceptions.** An exception inside a batch is a `Fault` chosen per
  file and per batch. It says where the exception strikes: opening the
  session, reading the checkpoint, reading the file, or writing.
- **Database.** The database is `Store.Database`. It holds the session's
  view of the tables and the last committed tables. The committed tables
  are the `Snapshot` that every specification function maps to the next
  one.
- **Line handling.** The batch and scan layers take it as `Env.reader`, a
  classifier and an event builder. `Batch.SourceEnv` is the source's
  choice: `Tail.Classify` then `Normalize.BuildEvent`. The layers' proofs
  hold for any reader.

Where the description of the system and the code differ, the model follows
the code:

- Message aliases are tried as `msg`, then `message` (`schemas/incoming.py:36`).
- Only the `data` key becomes `data_json`. Other unknown keys are accepted
  and dropped (`schemas/incoming.py:60`, `ingest/normalize.py:41`).
- `Stats` gains a `validationErrors` counter. The source's class lacks it,
  yet `ingest/tail.py:85` increments it and `ingest/ingest.py:26` reads
  it.
- The drain loop does not add `validation_errors` (`ingest/batch.py:81-86`).
  As a result, every file result and every pass reports 0 validation
  errors (`Batch.DrainReportsNoValidationErrors`,
  `Ingest.ScanReportsNoValidationErrors`).
- A batch over a missing file reports offset 0 and inode 0, not the saved
  checkpoint (`ingest/batch.py:29-33`).
- The description says that a second tail call with no new data returns
  no events and the same checkpoint. The code keeps this only after a call
  that stopped at end of file or at a partial line
  (`Tail.TailCaughtUp`, `Batch.BatchCaughtUp`). After a call that stopped
  on a full batch, the next call reads on.
- `EventDetailsNotFound` is not defined in `handlers/exceptions.py`. It is
  modelled as the error value `NotFound(id)`.

## Model

| member | source | states |
|---|---|---|
| IngestUtils.ComputeStartOffset | ingest/utils.py:12-22 | a known saved inode that differs from the current one gives 0; a saved offset past the size gives 0; otherwise the saved offset is kept, so a non-negative saved offset yields a start inside [0, size] |
| IngestUtils.CapText | ingest/utils.py:48-70 | `None` stays `None`; with `empty_to_none` an empty (stripped) value becomes `None`; otherwise the result is a prefix of the (stripped) value, at most `max_len` long when `max_len > 0` and the whole value when `max_len <= 0` |
| IngestUtils.RStripLineBreaks | ingest/utils.py:36 | the result is a prefix of the input, does not end in CR or LF, and only CR/LF bytes were removed |
| IngestUtils.DecodeJsonlLine | ingest/utils.py:35-36 | the decoded line never ends with CR or LF and is a prefix of the decoded bytes |
| IngestUtils.AppFromPath | ingest/utils.py:25-32 | the first segment below the log root; `None` for the root itself; outside the root, the parent directory's name, `None` when it is empty |
| IngestUtils.AppOfFileUnderApp | ingest/utils.py:25-32 | every file stored under `root/app/` is labelled `app` |
| IngestUtils.DtToUtcRfc3339Z | ingest/utils.py:73-82 | a trailing `+00:00` becomes `Z` and the rest is kept; other text is unchanged; the result never ends in `+00:00` |
| IngestUtils.SafeJsonDumps | ingest/utils.py:39-45 | no value gives `None`; otherwise the library's compact dump (itself `None` on a type error) |
| Incoming.FirstPresent | schemas/incoming.py:22-55 | the index of the first alias present in the object: all earlier aliases are absent |
| Incoming.ResolveFirstMatch | schemas/incoming.py:24 | first match wins: the value comes from the earliest present alias |
| Incoming.ResolveAbsent | schemas/incoming.py:22-25 | with no alias present the field is unset |
| Incoming.FirstPresentIgnoresOtherKeys | schemas/incoming.py:22-55 | a key outside the alias list does not change which alias wins |
| Incoming.NatToStringValue | schemas/incoming.py:79 | the decimal text of a natural number denotes that number |
| Incoming.ParseIntRoundTrip | schemas/incoming.py:79 | `int(str(i)) == i` for every integer |
| Incoming.AllDigitsGrouped | schemas/incoming.py:79 | plain decimal digits are digit text `int()` accepts |
| Incoming.SeparatorValue | schemas/incoming.py:79 | a `_` between digits does not change their value |
| Incoming.ParseIntSeparator | schemas/incoming.py:79 | `int()` accepts one `_` between two runs of digits and reads the digits without it (`"4_04"` gives 404) |
| Incoming.ParseIntDoubleSeparator | schemas/incoming.py:79-80 | two `_` in a row are refused (`"4__04"` gives `None`) |
| Incoming.ParseIntLeadingSeparator | schemas/incoming.py:79-80 | a `_` before the digits is refused |
| Incoming.ParseIntTrailingSeparator | schemas/incoming.py:79-80 | a `_` after the digits is refused |
| Incoming.Truncate | schemas/incoming.py:79 | `int(f)` truncates toward zero |
| Incoming.SoftInt | schemas/incoming.py:71-81 | `None`, `null` and `""` give `None`; booleans, arrays and objects give `None` (never 0 or 1); integers are kept; strings are parsed as `int()` parses them, with sign, surrounding whitespace and `_` separators (unparsable gives `None`); floats truncate |
| Incoming.SoftIntOfIntegerText | schemas/incoming.py:71-81 | a status given as the decimal text of an integer becomes that integer |
| Incoming.SoftFloat | schemas/incoming.py:83-93 | `None`, `null`, `""` and booleans give `None` |
| Incoming.TextNormalize | schemas/incoming.py:95-125 | never an empty or unstripped string; `null`, arrays and objects give `None`; a string gives `None` exactly when it is all whitespace, otherwise its stripped text |
| Incoming.TextNormalizeKeepsStrippedText | schemas/incoming.py:122-124 | non-empty stripped text is kept as it is |
| Incoming.TextNormalizeStringifiesInt | schemas/incoming.py:120-124 | an integer becomes its decimal text |
| Incoming.TextNormalizeStringifiesBool | schemas/incoming.py:120-124 | a boolean becomes its Python spelling, `True` or `False` |
| Incoming.Validate | schemas/incoming.py:15-125 | validation fails exactly when a timestamp is present, not `null` and not a datetime; on success every field is given: `ts` is the first present of `ts`/`timestamp`/`time` converted to UTC, or unset when absent or `null`; message, event type, status, method and path come from their first present alias through their validators; app, host, level, request_id, user_id, src_ip, user_agent and error_type are normalised text; latency_ms goes through the soft float; `data` is the non-null value under `data`, or unset |
| Incoming.ValidateTimestampPriority | schemas/incoming.py:22-25 | the stored timestamp comes from `ts` when present, else `timestamp`, else `time`; a present `null` leaves it unset and a present non-datetime is the validation error |
| Incoming.ResolveIgnoresOtherKeys | schemas/incoming.py:16-20 | a key outside an alias list does not change what that field resolves to |
| Incoming.GatherIgnoresUnknownKeys | schemas/incoming.py:16-20 | adding or replacing an unread key leaves every raw field as it was |
| Incoming.UnknownKeysIgnored | schemas/incoming.py:16-20 | adding or replacing an unread key changes neither whether validation succeeds nor the record |
| Normalize.ReplaceZ | ingest/normalize.py:33 | no `Z` survives; text without `Z` is unchanged |
| Normalize.EventTs | ingest/normalize.py:29-37 | the incoming timestamp rendered with `Z` when present; otherwise the reception time, parsed and rendered, or verbatim when it does not parse |
| Normalize.BuildEvent | ingest/normalize.py:20-90 | source file and offset copied; reception time kept when non-empty; app from the record when truthy, otherwise from the path; message, user agent and path capped with strip and empty-to-none; `data_json` capped without strip and absent without data; `raw_json` always present, a prefix of the decoded line, and whole when uncapped; every other field passes through |
| Normalize.NoDataNoPayload | ingest/normalize.py:41 | a record without a non-null `data` key yields no `data_json` |
| Normalize.IntegerText404 | schemas/incoming.py:79 | helper for the example below: `str(404)` is `"404"` |
| Normalize.KeyOutsideExample | schemas/incoming.py:60 | helper for the example below: its object has no `data` key |
| Normalize.HiText | schemas/incoming.py:95-125 | helper for the example below: `"hi"` normalises to itself |
| Normalize.UnreadKeyIsNotPayload | ingest/normalize.py:41 | the line `{"msg":"hi","status":"404","extra":{...}}` validates to message `hi` and status 404, and its unread `extra` key yields no `data_json` |
| Normalize.ExampleFields | schemas/incoming.py:34-47 | `msg: "hi"` and `status: "404"` give message `hi` and status 404 |
| FileOffsets.FileOffsetTable.GetOffset | repositories/file_offsets.py:5-6 | the row stored under the path, `None` exactly when there is none |
| FileOffsets.FileOffsetTable.UpsertOffset | repositories/file_offsets.py:9-19 | afterwards the path maps to the given inode, offset and time, created or overwritten; every other path's row is unchanged; the key set gains only the path |
| Tail.Classify | ingest/tail.py:60-88 | blank first, then JSON decoding, then the object check, then validation: each outcome holds exactly under its condition, and a valid line carries the validated record |
| Tail.CountBumpsOneCounter | ingest/tail.py:56-85 | a rejected line increments exactly its own counter by one, and the rejection total by one |
| Tail.FileContextStamps | ingest/tail.py:90-98 | events built by the reader carry the file's key and the offset where their line began |
| Tail.LineEnd | ingest/tail.py:49-53 | `readline` consumes at least one byte when not at end of file and never runs past it |
| Tail.SavedOffset | ingest/tail.py:26 | the stored offset, or 0 with no row or no offset |
| Tail.SavedInode | ingest/tail.py:27 | the stored inode, unknown with no row |
| Tail.StartOffset | ingest/tail.py:36 | `compute_start_offset` of the saved checkpoint, always inside the file |
| Tail.TailOf | ingest/tail.py:29-33 | a missing file gives no events, the saved offset and no inode; an existing file reports its current inode |
| Tail.TailBounds | ingest/tail.py:39-104 | the returned offset lies between the start offset and the size at a line boundary; at most `max_events` events; reading from the end returns nothing and the same offset |
| Tail.TailCounters | ingest/tail.py:46-88 | counters are non-negative; at most one partial line is counted, and only when no `'\n'` follows the returned offset; the read stops only at end of file, on a full batch or at that partial line |
| Tail.TailEventOffsets | ingest/tail.py:90-102 | each event names its file and starts at a line boundary between the start offset and the returned offset |
| Tail.TailEventLines | ingest/tail.py:81-99 | each event was built from a complete, valid line of the file starting at its source offset |
| Tail.TailEventsOrdered | ingest/tail.py:90-102 | event source offsets strictly increase |
| Tail.TailAccounting | ingest/tail.py:55-102 | every complete line consumed is counted exactly once: as an event or under one rejection counter |
| Tail.ReadNewLinesSinceLastOffset | ingest/tail.py:19-104 | returns `TailOf` of the stored checkpoint, whose properties the lemmas above state |
| Tail.ReadLines | ingest/tail.py:43-102 | the reading loop returns what the specification `ReadFrom` gives from the start offset |
| Tail.ReadFrom | ingest/tail.py:39-104 | the reading loop as a function: the returned offset lies between the start and the end of the file |
| Tail.ReadFromStopsHere | ingest/tail.py:47-51 | a full batch or end of file stops the read where it is |
| Tail.PartialLineStop | ingest/tail.py:55-58 | a line without `'\n'` is counted and not consumed |
| Tail.CompleteLineStep | ingest/tail.py:60-102 | a complete line is recorded and the read resumes just after it |
| Tail.ReadFromAdvances | ingest/tail.py:39-102 | a read only moves forward and stops at a line boundary inside the file |
| Tail.ReadFromBatch | ingest/tail.py:47-48 | a read keeps the events it had and stops adding at `max_events` |
| Tail.ReadFromCounters | ingest/tail.py:56-85 | a read never lowers a counter and counts at most one partial line |
| Tail.ReadFromPartialLine | ingest/tail.py:55-58 | a partial line is counted only when no `'\n'` follows the returned offset |
| Tail.ReadFromStops | ingest/tail.py:46-58 | a read stops only at end of file, on a full batch or at a partial line |
| Tail.ReadFromOffsets | ingest/tail.py:96-102 | each added event starts between where the read started and where it stopped |
| Tail.ReadFromLineStarts | ingest/tail.py:96-102 | each added event starts at a line boundary |
| Tail.ReadFromOrdered | ingest/tail.py:90-102 | added events come in strictly increasing offset order |
| Tail.ReadFromEventsAreLines | ingest/tail.py:81-99 | each added event is the one built from the valid complete line at its offset |
| Tail.ReadFromAccounting | ingest/tail.py:55-102 | the complete lines consumed equal the events added plus the rejections counted |
| Tail.PartialLineIsRest | ingest/tail.py:49-58 | a line without `'\n'` runs to end of file |
| Tail.ReadFromResumes | ingest/tail.py:39-104 | a read that did not stop at a partial line, resumed from its offset, events and counters with a larger batch, is the one read with the larger batch |
| Tail.CountShift | ingest/tail.py:56-85 | counting a rejection commutes with adding counters in front |
| Tail.ReadFromShift | ingest/tail.py:46-102 | a read does not depend on the events and counters it starts with: it adds the same events and counts the same rejections |
| Tail.ReadFromSplits | ingest/tail.py:39-104 | batches concatenate: two fresh reads of `m1` and `m2` events, the second from where the first stopped (not at a partial line), give the events, final offset and summed counters of one read of `m1 + m2` |
| Tail.FirstReadRest | ingest/tail.py:47-51 | after a first read that did not stop at a partial line, the rest of the larger batch reads as a batch of `m2` |
| Tail.NoNewlineIncomplete | ingest/tail.py:49-55 | a line with no `'\n'` after its start is partial |
| Tail.ReadFromCaughtUp | ingest/tail.py:47-58 | after a read that stopped at end of file or at a partial line, a fresh read from its offset finds no event and returns the same offset |
| Tail.TailResumes | ingest/tail.py:19-104 | two tail calls, the second resuming at the first's offset, return the events, final offset and summed counters of one call with both batch sizes |
| Tail.TailCaughtUp | ingest/tail.py:19-104 | a second tail call with no new data, after one that stopped at end of file or at a partial line, returns no event and the same offset |
| Store.IdsBelowIncreasing | models/models.py:13-22 | stored identifiers strictly increase and none exceeds the last one handed out |
| Store.NumberedKeepsIdsBelow | models/models.py:13-22 | appending freshly numbered rows keeps identifiers increasing |
| Store.NumberedConcatenates | models/models.py:13-22 | numbering two batches one after the other numbers their concatenation; the second batch's identifiers continue where the first one's end |
| Store.Database.InsertEventsBatch | repositories/events.py:6-8 | the events are added to the session numbered after the last identifier and their count is returned; nothing is committed |
| Store.Database.Commit | ingest/batch.py:49-50 | the session's tables become the committed ones |
| Store.Database.Rollback | ingest/batch.py:60-62 | pending writes are dropped and the session sees the committed tables |
| Batch.CheckpointOf | ingest/batch.py:17-20 | the checkpoint row of the path, `None` exactly when absent |
| Batch.IngestOneBatchForFile | ingest/batch.py:10-70 | the result, the committed tables and the commit count are those of `BatchStep`, whose properties the lemmas below state; the session is clean afterwards |
| Batch.StageWrites | ingest/batch.py:34-47 | the pending writes: the events appended with fresh identifiers, the checkpoint row upserted exactly on progress, nothing committed |
| Batch.WriteBatch | ingest/batch.py:29-70 | the write phase after the tail read: insert, upsert on progress, commit when anything was written, roll back on a write error |
| Batch.BatchMissingFile | ingest/batch.py:29-33 | a missing file gives 0 inserted, offset 0, inode 0, no progress and no write |
| Batch.BatchProgressRule | ingest/batch.py:34-50 | progress holds iff there was no checkpoint or the offset or inode changed; every tail event is counted as inserted; a commit happens iff progress or events |
| Batch.BatchWrites | ingest/batch.py:34-50 | the committed events gain the tail's events numbered after the last identifier exactly on commit; this file's checkpoint moves to the new offset and inode exactly on progress; other checkpoints are unchanged |
| Batch.BatchFaultRollsBack | ingest/batch.py:60-70 | an exception leaves the tables and commit count as before, inserts nothing and reports no progress, with the previous checkpoint's offset and inode; only a session failure escapes |
| Batch.BatchInsertsAtMost | ingest/batch.py:21-36 | a batch inserts at most `batch_size` events, and progresses only on an existing file without exception |
| Batch.BatchCheckpointInFile | ingest/batch.py:44-50 | a progressing batch stores a checkpoint inside the file, at a line boundary at or after the start offset |
| Batch.BatchNextStart | ingest/batch.py:17-50 | after a batch without exception over an existing file, the next batch over the unchanged file starts at the offset this one returned |
| Batch.BatchCaughtUp | ingest/batch.py:17-50 | after a batch that read to end of file or to a partial line, the next batch inserts nothing, does not progress, reports the same offset and writes nothing |
| Batch.BatchesConcatenate | ingest/batch.py:17-50 | two batches in a row with the same line handling commit exactly the events of one read with both batch sizes, numbered on from the last identifier, end at its offset and sum its counters |
| Batch.SourceEnvStamps | ingest/batch.py:21-23 | the source's reader labels events with the file key and line offset |
| Batch.DrainFails | ingest/batch.py:80 | an exception in a batch ends the drain with it |
| Batch.DrainStopsHere | ingest/batch.py:87-92 | a batch that did not progress, was short, or spent the budget ends the drain |
| Batch.DrainContinues | ingest/batch.py:77-92 | a full, progressing batch within budget hands over to the next |
| Batch.IngestFileCaughtUp | ingest/batch.py:73-92 | the result, committed tables and commit count are those of `Drain` |
| Batch.RunBatch | ingest/batch.py:80 | one loop iteration's batch, as the drain specification sees it |
| Batch.DrainBatches | ingest/batch.py:77-92 | the loop of the drain proved against the drain specification |
| Batch.DrainLength | ingest/batch.py:77-92 | at least one and at most `max(1, max_batches_per_file)` batches run; the batch count counts those that returned |
| Batch.DrainContinuesOnlyOnFullBatches | ingest/batch.py:87-92 | every batch before the last progressed and was full |
| Batch.DrainStopRule | ingest/batch.py:87-92 | the last batch did not progress, was short, or the budget is spent |
| Batch.DrainInserted | ingest/batch.py:81 | the drain's inserted count is the sum over its batches |
| Batch.DrainStats | ingest/batch.py:83-86 | four counters are summed over the batches and `validation_errors` is not |
| Batch.DrainReportsNoValidationErrors | ingest/batch.py:76-86 | a drained file reports 0 validation errors |
| Ingest.IngestOnce | ingest/ingest.py:8-32 | the result, committed tables and commit count are those of `Scan` |
| Ingest.RunFile | ingest/ingest.py:15-18 | one file's drain, as the pass specification sees it |
| Ingest.ScanFiles | ingest/ingest.py:13-30 | the loop of the pass proved against the pass specification |
| Ingest.ScanStep | ingest/ingest.py:13-30 | the pass handles the first file, then the rest from the tables it left |
| Ingest.CountOk | ingest/ingest.py:19 | files counted as scanned never exceed the files |
| Ingest.ScanCounts | ingest/ingest.py:13-30 | each file gets one outcome, in order; scanned counts the successes and failed the failures, and together they count every path |
| Ingest.ScanTotals | ingest/ingest.py:20-21 | inserted and batch totals are sums over the files that succeeded |
| Ingest.ScanStats | ingest/ingest.py:22-26 | all five counters are summed over the files that succeeded |
| Ingest.OkKeysMembers | ingest/ingest.py:27 | a path is among the succeeded ones iff some file with that path was drained without exception |
| Ingest.ScanPerFileKeys | ingest/ingest.py:27 | `per_file` gains exactly the paths drained without exception |
| Ingest.ScanPerFileValues | ingest/ingest.py:27 | a path's entry is the result of the last successful drain of that path |
| Ingest.ScanKeepsEntry | ingest/ingest.py:27-30 | a path no file drains successfully keeps its entry |
| Ingest.ScanReportsNoValidationErrors | ingest/ingest.py:26 | the pass reports 0 validation errors |
| Ingest.OkDrainsAddNoValidationErrors | ingest/ingest.py:26 | summing drains without validation errors gives none |
| EventsQuery.ClampLimit | handlers/events.py:29 | the limit is clamped into [1, 500]: kept inside, 1 below, 500 above |
| EventsQuery.Render | handlers/events.py:33-38 | a given bound is rendered with the `Z` suffix, an absent one stays absent |
| EventsQuery.FilterRowsMembers | handlers/events.py:31-71 | a row passes iff it is stored and matches, keeping its multiplicity |
| EventsQuery.SortNewestFirstOrders | handlers/events.py:73 | ordering yields a list newest first: by time, then by identifier, both descending |
| EventsQuery.SortNewestFirstPermutes | handlers/events.py:73 | ordering keeps the same rows, each as often as before |
| EventsQuery.MatchesAreListed | handlers/events.py:31-73 | every stored matching row is in the ordered result |
| EventsQuery.InsertOrdered | handlers/events.py:73 | inserting into an ordered list keeps it ordered |
| EventsQuery.GetEventsAll | handlers/events.py:13-76 | an error exactly when one of `before_ts`/`before_id` is given without the other; a page never exceeds the clamped limit |
| EventsQuery.GetEventsAllPage | handlers/events.py:29-76 | every row of the page is stored and matches; the page is newest first; a matching row left out means the page is full and comes after every row on it |
| EventsQuery.GetEventsAllFilters | handlers/events.py:33-71 | every row satisfies each supplied filter in the request's own terms: time bounds, non-empty lists, exact values, text search, cursor |
| EventsQuery.SelectSound | handlers/events.py:31-75 | the page is matching stored rows, ordered, of length `min(limit, matches)` |
| EventsQuery.TakeIsTop | handlers/events.py:73 | taking from an ordered list leaves off only rows after everything taken |
| EventsQuery.SelectIsTop | handlers/events.py:73-75 | the page is a prefix of the full ordered result: the newest `limit` matching rows |
| EventsQuery.EmptyListIsNoFilter | handlers/events.py:40-45 | an empty list filter is the same as none |
| EventsQuery.NextPageContinues | handlers/events.py:61-73 | with the last row as the next cursor, a matching row is on this page iff the next request would not match it: nothing skipped, nothing repeated |
| EventsQuery.GetEventDetails | handlers/events.py:79-83 | the stored row with that identifier, or `NotFound(id)` exactly when none has it |
| Metadata.AppNames | handlers/metadata.py:11-15 | no more names than entries |
| Metadata.AppNamesMembers | handlers/metadata.py:11-15 | a name is listed iff some entry with that name is a directory not starting with `.` |
| Metadata.GetAppsFromFs | handlers/metadata.py:7-19 | a missing directory or a permission error gives `LogDirUnavailable(log_dir)`; any other `OSError` (such as `NotADirectoryError`) propagates as it is; otherwise the app names, sorted by case-folded name, exactly the visible directories |
| Metadata.SortByFoldOrders | handlers/metadata.py:16 | the sort yields the same names, each as often, in case-folded order |
| Metadata.SortByFoldMembers | handlers/metadata.py:16 | the sort neither adds nor drops a name |
| Metadata.InsertBeforeOrdered | handlers/metadata.py:16 | inserting into a sorted list keeps it sorted |
| Metadata.SortByFoldStable | handlers/metadata.py:16 | the sort is stable: names with equal case-folded keys keep their listing order |

## Left out

- Filesystem calls are not modelled; a file is the bytes and inode they would observe. These are `Path.resolve`, `stat`, `open`, `seek` and `readline`, `os.scandir`, and discovery (`discover_jsonl_files`). The pass receives the discovered files as input.
- `json.loads`, `json.dumps`, lossy UTF-8 decoding, float parsing and datetime parsing and conversion (`_ts_to_utc`, `fromisoformat`, `astimezone`) are fields of `Library.Lib`. The properties hold for any behaviour of them.
- The clocks (`utc_now_iso`, `datetime.now`) are parameters, one reading of each per batch.
- `ingest_loop` is not modelled; it is a thread with a stop event and a timed wait.
- The ORM and SQL are not modelled: `defer` options, SQL generation, `session.close`, and the `echo` and `autoflush` settings. The store is the committed tables plus the session's view, with commit and rollback.
- The `LIKE` wildcards `%` and `_` inside `q` are not modelled. `q` is a plain substring test.
- EventsQuery.ContainsText: case folding is ASCII only, which is SQLite's `LIKE` default. Text outside ASCII is compared as written.
- Metadata.SortByFold: `str.casefold` is modelled as ASCII lower-casing. Unicode folding (such as `ß` → `ss`) is not.
- Metadata.GetAppsFromFs: an `OSError` raised by the `scandir` iterator midway through a listing is not modelled. Only errors from opening the directory are.
- The `print` calls in the exception handlers are not modelled; they are output only.
- Batch.IngestOneBatchForFile: an exception is one of four injected fault points. Exceptions inside the library functions are not separate cases.
- Checkpoint offsets are natural numbers. A negative stored offset, which would make `seek` raise, is not modelled.
- Times are compared as the stored text, as SQLite does. The model does not check that the stored text is well-formed RFC 3339.
- `_soft_float` and `latency_ms` are only modelled for their refusals (`None`, `""`, booleans). Float parsing is a library call.
- `Stats` counters are unbounded integers, like Python's.
- Incoming.SoftInt: only ASCII digits are read. `int()` also accepts other Unicode decimal digits (`"٤٠٤"` and `"４０４"` give 404); the model gives `None` for them.
- Incoming.SoftInt: JSON values are finite. `json.loads` also returns `NaN`, `Infinity` and out-of-range floats such as `1e400` (infinite). For a status of `NaN`, `int()` raises a `ValueError`, which is caught (`None`). For an infinite status, `int()` raises an `OverflowError`, which nothing catches until the batch's `except Exception` (`ingest/batch.py:60`). The same holds for a `latency_ms` integer too large for `float()`. That batch rolls back without progress, and so does every later batch of the file: the file stays stuck before that line. The model classifies such a line as valid.
- IngestUtils.SafeJsonDumps: a JSON object is a map, so the order of its keys is lost. `json.dumps` writes a `dict`'s keys in the order they appear in the line. `data_json` therefore depends on that order, and two lines whose `data` differ only in key order store different text. The model gives both the same value.
- Tail.Classify: `json.loads` can raise errors other than `JSONDecodeError` and `UnicodeDecodeError`. On Python 3.11 and later, an integer literal of more than 4300 digits raises a plain `ValueError`, and very deep nesting raises `RecursionError`. Neither is caught at `ingest/tail.py:68`; both reach the batch's `except Exception` (`ingest/batch.py:60`). As with an infinite status, the file then stays stuck before that line. `Lib.loads` returns either a value or `None`, so the model classifies such a line as valid or as a JSON error.
- Incoming.SoftInt: integers are unbounded. On Python 3.11 and later, `int()` of a digit string longer than 4300 digits raises `ValueError`, which `_soft_int` catches (`None`). The model returns the value.
- Batch.Drain: one version of the file serves every batch of a drain. The source reopens the file for each batch (`ingest/batch.py:80`), so a later batch also reads lines appended while the drain runs. The model does not capture a writer running beside the drain.
