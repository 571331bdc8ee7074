/** The records the ingest path and the query layer exchange: the stored
    event (`schemas/event.py`, `models/models.py`), the checkpoint row
    (`schemas/fileoffset.py`) and the counters and results of one tail call,
    one batch, one drained file and one scan pass (`schemas/ingest.py`). */
module Schemas {
  import opened Wrappers

  /** Per-line outcome counters. `validationErrors` is not declared by the
      source's `Stats` class although the tail reader increments it and the
      scan pass reads it; the model declares it. The counters are plain
      integers, as in the source; the lemmas about the readers show that
      they never go below zero. */
  datatype Stats = Stats(
    emptyLines: int,
    jsonErrors: int,
    nonObject: int,
    incompleteLines: int,
    validationErrors: int)

  const NoStats := Stats(0, 0, 0, 0, 0)

  /** Field-wise sum of all five counters, as the scan pass aggregates them. */
  function AddStats(a: Stats, b: Stats): Stats {
    Stats(a.emptyLines + b.emptyLines, a.jsonErrors + b.jsonErrors, a.nonObject + b.nonObject,
          a.incompleteLines + b.incompleteLines, a.validationErrors + b.validationErrors)
  }

  /** The sum the drain loop computes: four counters are added and
      `validationErrors` keeps the accumulator's value. */
  function AddStatsExceptValidation(a: Stats, b: Stats): Stats {
    a.(emptyLines := a.emptyLines + b.emptyLines, jsonErrors := a.jsonErrors + b.jsonErrors,
       nonObject := a.nonObject + b.nonObject, incompleteLines := a.incompleteLines + b.incompleteLines)
  }

  /** One normalised log line. The numeric `id` is assigned by the store at
      insertion, so it lives in `Row`. */
  datatype Event = Event(
    ts: string,
    receivedAt: string,
    app: Option<string>,
    host: Option<string>,
    level: Option<string>,
    eventType: Option<string>,
    message: Option<string>,
    requestId: Option<string>,
    userId: Option<string>,
    srcIp: Option<string>,
    userAgent: Option<string>,
    httpMethod: Option<string>,
    httpPath: Option<string>,
    httpStatus: Option<int>,
    latencyMs: Option<real>,
    errorType: Option<string>,
    dataJson: Option<string>,
    rawJson: Option<string>,
    sourceFile: string,
    sourceOffset: int)

  /** A stored event with its auto-incremented identifier. */
  datatype Row = Row(id: int, event: Event)

  /** A checkpoint row of the `file_offsets` table, keyed by path elsewhere. */
  datatype FileOffsetRow = FileOffsetRow(inode: Option<int>, offset: Option<nat>, updatedAt: Option<string>)

  datatype TailResult = TailResult(events: seq<Event>, newOffset: nat, inode: Option<int>, stats: Stats)

  datatype BatchResult = BatchResult(insertedCount: nat, newOffset: nat, inode: Option<int>, progressed: bool, stats: Stats)

  datatype FileResult = FileResult(insertedCount: nat, batchCount: nat, stats: Stats)

  datatype IngestResult = IngestResult(
    filesScanned: nat,
    filesFailed: nat,
    totalInserted: nat,
    totalBatches: nat,
    stats: Stats,
    perFile: map<string, FileResult>)
}
