/** One ingest batch for one file and the drain loop that repeats it until
    the file is caught up (`ingest/batch.py`). A batch reads the checkpoint,
    tails the file, inserts the events, moves the checkpoint when the read
    progressed, and commits; an exception inside it rolls the session back. */
module Batch {
  import opened Wrappers
  import opened Library
  import opened Schemas
  import opened Normalize
  import opened FileOffsets
  import opened Tail
  import opened Store
  import opened Incoming

  /** Where, if anywhere, an exception strikes during one batch. */
  datatype Fault =
    | NoFault
      /** Opening the session raises; the batch does not catch it. */
    | SessionFails
      /** `get_offset` raises. */
    | CheckpointReadFails
      /** Reading the file raises. */
    | TailFails
      /** The insert, the upsert or the commit raises. */
    | WriteFails

  /** The exception that leaves a batch (and the drain loop) uncaught. */
  datatype BatchError = SessionUnavailable

  /** What one batch runs with: the line handling for each file (the tail
      reader's classifier and event builder, which carries the reception
      clock reading of the batch's tail call) and the clock reading the
      batch stamps the checkpoint row with. Every batch has its own. */
  datatype Env = Env(reader: LogFile -> LineContext<IncomingLogEvent, Event>, updatedAt: string)

  /** The environment of one batch of the source: the file is read with
      `FileContext` under the reception-clock reading `now` its tail call
      takes, and the checkpoint is stamped with the reading `updatedAt` the
      batch takes. */
  function SourceEnv(now: string, updatedAt: string, settings: Settings, lib: Lib): Env {
    Env(file => FileContext(file, now, settings, lib), updatedAt)
  }

  /** What one batch returns, the committed tables after it, and whether it
      committed. */
  datatype Step = Step(result: Result<BatchResult, BatchError>, after: Snapshot, committed: bool)

  /** The checkpoint row stored for `key`. */
  function CheckpointOf(s: Snapshot, key: string): (row: Option<FileOffsetRow>)
    ensures row.Some? <==> key in s.offsets
    ensures row.Some? ==> row.value == s.offsets[key]
  {
    if key in s.offsets then Some(s.offsets[key]) else None
  }

  /** A read progressed when there was no checkpoint, or the offset or the
      inode differs from the stored one. */
  predicate Progressed(row: Option<FileOffsetRow>, offset: nat, inode: int) {
    row.None? || offset != SavedOffset(row) || Some(inode) != SavedInode(row)
  }

  /** One batch over the committed tables `s`. */
  function BatchStep(s: Snapshot, file: LogFile, batchSize: int, env: Env, fault: Fault): Step {
    var row := CheckpointOf(s, file.key);
    match fault
      case SessionFails => Step(Err(SessionUnavailable), s, false)
      case CheckpointReadFails => Step(Ok(BatchResult(0, 0, None, false, NoStats)), s, false)
      case TailFails => Step(Ok(BatchResult(0, SavedOffset(row), SavedInode(row), false, NoStats)), s, false)
      case NoFault => TailAndWrite(s, file, batchSize, env, false)
      case WriteFails => TailAndWrite(s, file, batchSize, env, true)
  }

  /** A batch that gets as far as reading the file. */
  function TailAndWrite(s: Snapshot, file: LogFile, batchSize: int, env: Env, writeFails: bool): Step {
    var row := CheckpointOf(s, file.key);
    Write(s, file.key, row, TailOf(row, file, batchSize, env.reader(file)), env.updatedAt, writeFails)
  }

  /** The write phase after the tail read `t` from checkpoint `row`:
      nothing is written for a missing file or for a read that neither
      progressed nor found events; otherwise the events and, on progress,
      the checkpoint are committed, unless `writeFails`, in which case all of
      it is rolled back. */
  function Write(s: Snapshot, key: string, row: Option<FileOffsetRow>, t: TailResult, updatedAt: string, writeFails: bool): Step {
    if t.inode.None? then Step(Ok(BatchResult(0, 0, Some(0), false, t.stats)), s, false)
    else
      var progressed := Progressed(row, t.newOffset, t.inode.value);
      if !progressed && |t.events| == 0 then
        Step(Ok(BatchResult(0, t.newOffset, t.inode, false, t.stats)), s, false)
      else if writeFails then
        Step(Ok(BatchResult(0, SavedOffset(row), SavedInode(row), false, t.stats)), s, false)
      else
        var offsets := if progressed
          then s.offsets[key := FileOffsetRow(t.inode, Some(t.newOffset), Some(updatedAt))]
          else s.offsets;
        Step(Ok(BatchResult(|t.events|, t.newOffset, t.inode, progressed, t.stats)),
             Snapshot(s.events + Numbered(t.events, s.lastId + 1), s.lastId + |t.events|, offsets),
             true)
  }

  /** `ingest_one_batch_for_file`. The session is clean on entry (every
      batch leaves it so) and clean on exit. */
  method IngestOneBatchForFile(db: Database, file: LogFile, batchSize: int, env: Env, fault: Fault)
    returns (r: Result<BatchResult, BatchError>)
    requires db.Valid() && db.Clean()
    modifies db, db.offsets
    ensures db.Valid() && db.Clean()
    ensures var step := BatchStep(old(db.State()), file, batchSize, env, fault);
      && r == step.result && db.State() == step.after
      && db.commits == old(db.commits) + (if step.committed then 1 else 0)
  {
    if fault.SessionFails? {
      return Err(SessionUnavailable);
    }
    var prevOffset: nat := 0;
    var prevInode: Option<int> := None;
    var stats := NoStats;
    if fault.CheckpointReadFails? {
      db.Rollback();
      return Ok(BatchResult(0, prevOffset, prevInode, false, stats));
    }
    var row := db.offsets.GetOffset(file.key);
    if row.Some? {
      prevOffset := if row.value.offset.None? then 0 else row.value.offset.value;
      prevInode := row.value.inode;
    }
    if fault.TailFails? {
      db.Rollback();
      return Ok(BatchResult(0, prevOffset, prevInode, false, stats));
    }
    var tailResult := ReadNewLinesSinceLastOffset(db.offsets, file, batchSize, env.reader(file));
    r := WriteBatch(db, file.key, row, prevOffset, prevInode, tailResult, env.updatedAt, fault.WriteFails?);
  }

  /** The second half of `ingest_one_batch_for_file`, from the tail result
      on: insert the events, upsert the checkpoint on progress, and commit
      when anything was written; a write that raises rolls all of it back. */
  method WriteBatch(db: Database, key: string, row: Option<FileOffsetRow>, prevOffset: nat, prevInode: Option<int>,
                    tailResult: TailResult, updatedAt: string, writeFails: bool)
    returns (r: Result<BatchResult, BatchError>)
    requires db.Valid() && db.Clean()
    requires row == CheckpointOf(db.State(), key)
    requires prevOffset == SavedOffset(row) && prevInode == SavedInode(row)
    modifies db, db.offsets
    ensures db.Valid() && db.Clean()
    ensures var step := Write(old(db.State()), key, row, tailResult, updatedAt, writeFails);
      && r == step.result && db.State() == step.after
      && db.commits == old(db.commits) + (if step.committed then 1 else 0)
  {
    var events := tailResult.events;
    var offset := tailResult.newOffset;
    var inode := tailResult.inode;
    var stats := tailResult.stats;

    if inode.None? {
      return Ok(BatchResult(0, 0, Some(0), false, stats));
    }
    var insertedCount := |events|;
    var progressed := row.None? || offset != prevOffset || inode != prevInode;
    StageWrites(db, key, events, inode.value, offset, updatedAt, progressed);
    if progressed || insertedCount != 0 {
      if writeFails {
        db.Rollback();
        return Ok(BatchResult(0, prevOffset, prevInode, false, stats));
      }
      db.Commit();
    }
    return Ok(BatchResult(insertedCount, offset, inode, progressed, stats));
  }

  /** The pending writes of a batch: the events are inserted when there
      are any, and the checkpoint row is upserted when the read
      progressed. Nothing is committed. */
  method StageWrites(db: Database, key: string, events: seq<Event>, inode: int, offset: nat, updatedAt: string, progressed: bool)
    requires db.Valid()
    modifies db, db.offsets
    ensures db.Valid()
    ensures db.events == old(db.events) + Numbered(events, old(db.lastId) + 1)
    ensures db.lastId == old(db.lastId) + |events|
    ensures db.offsets.rows == if progressed
      then old(db.offsets.rows)[key := FileOffsetRow(Some(inode), Some(offset), Some(updatedAt))]
      else old(db.offsets.rows)
    ensures db.State() == old(db.State()) && db.commits == old(db.commits)
  {
    if |events| > 0 {
      var _ := db.InsertEventsBatch(events);
    } else {
      assert Numbered(events, db.lastId + 1) == [];
      assert db.events + [] == db.events;
    }
    if progressed {
      db.offsets.UpsertOffset(key, inode, offset, updatedAt);
    }
  }

  /** What the drain loop adds for one batch: its inserted count, one more
      batch, and four of the five counters; `validationErrors` is not
      added. */
  function AddBatch(acc: FileResult, b: BatchResult): FileResult {
    FileResult(acc.insertedCount + b.insertedCount, acc.batchCount + 1, AddStatsExceptValidation(acc.stats, b.stats))
  }

  /** The drain loop's outcome: its running totals, the results of the
      batches that returned, the exception that escaped (if any), the
      committed tables afterwards and the number of commits. */
  datatype Drained = Drained(total: FileResult, trace: seq<BatchResult>, error: Option<BatchError>, after: Snapshot, commits: nat)

  /** The drain loop over any batch step: `step(s, k)` is batch number `k`
      run against the committed tables `s`; `remaining` is the batch budget
      before the loop decrements it, and `acc` the totals so far. */
  function DrainWith(step: (Snapshot, nat) -> Step, s: Snapshot, batchSize: int, remaining: int, k: nat, acc: FileResult): Drained
    decreases if remaining < 0 then 0 else remaining
  {
    var st := step(s, k);
    var c := if st.committed then 1 else 0;
    match st.result
      case Err(e) => Drained(acc, [], Some(e), st.after, c)
      case Ok(b) =>
        if !b.progressed || b.insertedCount < batchSize || remaining - 1 <= 0 then
          Drained(AddBatch(acc, b), [b], None, st.after, c)
        else
          var rest := DrainWith(step, st.after, batchSize, remaining - 1, k + 1, AddBatch(acc, b));
          rest.(trace := [b] + rest.trace, commits := c + rest.commits)
  }

  /** A batch that raises ends the drain with its exception. */
  lemma DrainFails(step: (Snapshot, nat) -> Step, s: Snapshot, batchSize: int, remaining: int, k: nat, acc: FileResult)
    requires step(s, k).result.Err?
    ensures var st := step(s, k);
      var d := DrainWith(step, s, batchSize, remaining, k, acc);
      && d.total == acc && d.error == Some(st.result.error) && d.after == st.after
      && d.commits == (if st.committed then 1 else 0)
  {
  }

  /** A batch that meets a stop condition ends the drain with its totals. */
  lemma DrainStopsHere(step: (Snapshot, nat) -> Step, s: Snapshot, batchSize: int, remaining: int, k: nat, acc: FileResult)
    requires step(s, k).result.Ok?
    requires var b := step(s, k).result.value;
      !b.progressed || b.insertedCount < batchSize || remaining - 1 <= 0
    ensures var st := step(s, k);
      var d := DrainWith(step, s, batchSize, remaining, k, acc);
      && d.total == AddBatch(acc, st.result.value) && d.error.None? && d.after == st.after
      && d.commits == (if st.committed then 1 else 0)
  {
  }

  /** A full, progressing batch within the budget hands over to the next
      one. */
  lemma DrainContinues(step: (Snapshot, nat) -> Step, s: Snapshot, batchSize: int, remaining: int, k: nat, acc: FileResult)
    requires step(s, k).result.Ok?
    requires var b := step(s, k).result.value;
      b.progressed && b.insertedCount >= batchSize && remaining - 1 > 0
    ensures var st := step(s, k);
      var d := DrainWith(step, s, batchSize, remaining, k, acc);
      var rest := DrainWith(step, st.after, batchSize, remaining - 1, k + 1, AddBatch(acc, st.result.value));
      && d.total == rest.total && d.error == rest.error && d.after == rest.after
      && d.commits == (if st.committed then 1 else 0) + rest.commits
  {
  }

  /** Batch number `k` of one file, with its own environment (its clock
      readings) and the fault injected into it. */
  function BatchesOf(file: LogFile, batchSize: int, envs: nat -> Env, faults: nat -> Fault): (Snapshot, nat) -> Step {
    (s: Snapshot, k: nat) => BatchStep(s, file, batchSize, envs(k), faults(k))
  }

  /** `ingest_file_caught_up` over the committed tables `s`. */
  function Drain(s: Snapshot, file: LogFile, batchSize: int, maxBatchesPerFile: int, envs: nat -> Env, faults: nat -> Fault): Drained {
    DrainWith(BatchesOf(file, batchSize, envs, faults), s, batchSize, maxBatchesPerFile, 0, FileResult(0, 0, NoStats))
  }

  /** `step` is batch number `k` of one file under its environment and
      fault, for every `k` and every state of the tables. */
  ghost predicate RunsBatchesOf(step: (Snapshot, nat) -> Step, file: LogFile, batchSize: int, envs: nat -> Env, faults: nat -> Fault) {
    forall s: Snapshot, k: nat {:trigger BatchStep(s, file, batchSize, envs(k), faults(k))} ::
      step(s, k) == BatchStep(s, file, batchSize, envs(k), faults(k))
  }

  /** `ingest_file_caught_up`: repeat batches until one does not progress,
      one inserts fewer than `batchSize` events, or the batch budget is
      spent. An exception that escapes a batch escapes the loop. */
  method IngestFileCaughtUp(db: Database, file: LogFile, batchSize: int, maxBatchesPerFile: int, envs: nat -> Env, faults: nat -> Fault)
    returns (r: Result<FileResult, BatchError>)
    requires db.Valid() && db.Clean()
    modifies db, db.offsets
    ensures db.Valid() && db.Clean()
    ensures var d := Drain(old(db.State()), file, batchSize, maxBatchesPerFile, envs, faults);
      && r == (if d.error.Some? then Err(d.error.value) else Ok(d.total))
      && db.State() == d.after && db.commits == old(db.commits) + d.commits
  {
    r := DrainBatches(db, file, batchSize, maxBatchesPerFile, envs, faults, BatchesOf(file, batchSize, envs, faults));
  }

  /** Batch number `k`, seen through `step`. */
  method RunBatch(db: Database, file: LogFile, batchSize: int, envs: nat -> Env, faults: nat -> Fault, k: nat,
                  ghost step: (Snapshot, nat) -> Step)
    returns (r: Result<BatchResult, BatchError>)
    requires db.Valid() && db.Clean()
    requires RunsBatchesOf(step, file, batchSize, envs, faults)
    modifies db, db.offsets
    ensures db.Valid() && db.Clean()
    ensures var st := step(old(db.State()), k);
      && r == st.result && db.State() == st.after
      && db.commits == old(db.commits) + (if st.committed then 1 else 0)
  {
    r := IngestOneBatchForFile(db, file, batchSize, envs(k), faults(k));
  }

  /** The loop of `ingest_file_caught_up`, proved against the drain over
      any `step` that runs this file's batches. */
  method DrainBatches(db: Database, file: LogFile, batchSize: int, maxBatchesPerFile: int, envs: nat -> Env, faults: nat -> Fault,
                      ghost step: (Snapshot, nat) -> Step)
    returns (r: Result<FileResult, BatchError>)
    requires db.Valid() && db.Clean()
    requires RunsBatchesOf(step, file, batchSize, envs, faults)
    modifies db, db.offsets
    ensures db.Valid() && db.Clean()
    ensures var d := DrainWith(step, old(db.State()), batchSize, maxBatchesPerFile, 0, FileResult(0, 0, NoStats));
      && r == (if d.error.Some? then Err(d.error.value) else Ok(d.total))
      && db.State() == d.after && db.commits == old(db.commits) + d.commits
  {
    var fileResult := FileResult(0, 0, NoStats);
    var remaining := maxBatchesPerFile;
    var k: nat := 0;
    ghost var whole := DrainWith(step, db.State(), batchSize, remaining, k, fileResult);
    ghost var commits: nat := 0;
    while true
      invariant db.Valid() && db.Clean()
      invariant var rest := DrainWith(step, db.State(), batchSize, remaining, k, fileResult);
        && whole.total == rest.total && whole.error == rest.error && whole.after == rest.after
        && whole.commits == commits + rest.commits
      invariant db.commits == old(db.commits) + commits
      decreases if remaining < 0 then 0 else remaining
    {
      ghost var before := db.State();
      ghost var budget := remaining;
      ghost var acc := fileResult;
      remaining := remaining - 1;
      var batchResult := RunBatch(db, file, batchSize, envs, faults, k, step);
      ghost var st := step(before, k);
      if batchResult.Err? {
        DrainFails(step, before, batchSize, budget, k, acc);
        return Err(batchResult.error);
      }
      var b := batchResult.value;
      commits := commits + (if st.committed then 1 else 0);
      fileResult := fileResult.(insertedCount := fileResult.insertedCount + b.insertedCount);
      fileResult := fileResult.(batchCount := fileResult.batchCount + 1);
      fileResult := fileResult.(stats := AddStatsExceptValidation(fileResult.stats, b.stats));
      assert fileResult == AddBatch(acc, b);
      if !b.progressed || b.insertedCount < batchSize || remaining <= 0 {
        DrainStopsHere(step, before, batchSize, budget, k, acc);
        return Ok(fileResult);
      }
      DrainContinues(step, before, batchSize, budget, k, acc);
      k := k + 1;
    }
  }

  /** The source's environment labels every event of a file with the file's
      key and the offset of its line. */
  lemma SourceEnvStamps(now: string, updatedAt: string, settings: Settings, lib: Lib, file: LogFile)
    ensures Stamped(SourceEnv(now, updatedAt, settings, lib).reader(file))
    ensures Labelled(SourceEnv(now, updatedAt, settings, lib).reader(file), file.key)
  {
    FileContextStamps(file, now, settings, lib);
    assert SourceEnv(now, updatedAt, settings, lib).reader(file) == FileContext(file, now, settings, lib);
  }

  /** A batch over a missing file reports nothing inserted, offset 0,
      inode 0 and no progress, and writes nothing. */
  lemma BatchMissingFile(s: Snapshot, file: LogFile, batchSize: int, env: Env, fault: Fault)
    requires file.state.Missing?
    requires fault.NoFault? || fault.WriteFails?
    ensures BatchStep(s, file, batchSize, env, fault) == Step(Ok(BatchResult(0, 0, Some(0), false, NoStats)), s, false)
  {
  }

  /** A batch without exception over an existing file: it progressed
      exactly when there was no checkpoint or the offset or inode moved; it
      inserts every event the tail returned; it commits exactly when it
      progressed or inserted something. */
  lemma BatchProgressRule(s: Snapshot, file: LogFile, batchSize: int, env: Env)
    requires file.state.Present?
    ensures BatchStep(s, file, batchSize, env, NoFault).result.Ok?
    ensures var row := CheckpointOf(s, file.key);
      var t := TailOf(row, file, batchSize, env.reader(file));
      var st := BatchStep(s, file, batchSize, env, NoFault);
      var b := st.result.value;
      && (b.progressed <==> row.None? || t.newOffset != SavedOffset(row) || Some(file.state.inode) != SavedInode(row))
      && b.insertedCount == |t.events| && b.newOffset == t.newOffset
      && b.inode == Some(file.state.inode) && b.stats == t.stats
      && (st.committed <==> b.progressed || |t.events| > 0)
  {
  }

  /** What a batch without exception leaves in the tables: the tail's
      events numbered after the last identifier when it commits, the
      checkpoint of this file moved to the new offset and inode exactly when
      it progressed, and every other file's checkpoint as it was. */
  lemma BatchWrites(s: Snapshot, file: LogFile, batchSize: int, env: Env)
    requires file.state.Present?
    ensures var row := CheckpointOf(s, file.key);
      var t := TailOf(row, file, batchSize, env.reader(file));
      var st := BatchStep(s, file, batchSize, env, NoFault);
      var inode := file.state.inode;
      && st.after.events == s.events + (if st.committed then Numbered(t.events, s.lastId + 1) else [])
      && st.after.lastId == s.lastId + (if st.committed then |t.events| else 0)
      && CheckpointOf(st.after, file.key)
         == (if Progressed(row, t.newOffset, inode)
             then Some(FileOffsetRow(Some(inode), Some(t.newOffset), Some(env.updatedAt)))
             else row)
      && (forall key | key != file.key :: CheckpointOf(st.after, key) == CheckpointOf(s, key))
  {
    var st := BatchStep(s, file, batchSize, env, NoFault);
    assert st.after.events == s.events + (if st.committed then Numbered(TailOf(CheckpointOf(s, file.key), file, batchSize, env.reader(file)).events, s.lastId + 1) else []);
  }

  /** Whether a batch without exception would write anything: the file
      exists and the read progressed or found events. */
  predicate WouldWrite(s: Snapshot, file: LogFile, batchSize: int, env: Env) {
    var row := CheckpointOf(s, file.key);
    var t := TailOf(row, file, batchSize, env.reader(file));
    file.state.Present? && (Progressed(row, t.newOffset, file.state.inode) || |t.events| > 0)
  }

  /** An exception caught inside a batch rolls it back: the tables are as
      before, nothing is inserted, nothing progressed, and the result
      reports the checkpoint read so far (none when reading it failed). An
      exception opening the session escapes and changes nothing. */
  lemma BatchFaultRollsBack(s: Snapshot, file: LogFile, batchSize: int, env: Env, fault: Fault)
    requires !fault.NoFault?
    requires fault.WriteFails? ==> WouldWrite(s, file, batchSize, env)
    ensures var st := BatchStep(s, file, batchSize, env, fault);
      && st.after == s && !st.committed
      && (fault.SessionFails? <==> st.result.Err?)
    ensures var st := BatchStep(s, file, batchSize, env, fault);
      var row := CheckpointOf(s, file.key);
      st.result.Ok? ==>
        && st.result.value.insertedCount == 0 && !st.result.value.progressed
        && (fault.CheckpointReadFails? ==> st.result.value.newOffset == 0 && st.result.value.inode.None?)
        && (!fault.CheckpointReadFails? ==> st.result.value.newOffset == SavedOffset(row) && st.result.value.inode == SavedInode(row))
  {
  }

  /** A batch inserts at most `batchSize` events, and one that progressed
      read an existing file without exception. */
  lemma BatchInsertsAtMost(s: Snapshot, file: LogFile, batchSize: int, env: Env, fault: Fault)
    ensures var st := BatchStep(s, file, batchSize, env, fault);
      st.result.Ok? ==> st.result.value.insertedCount <= (if batchSize < 0 then 0 else batchSize)
    ensures var st := BatchStep(s, file, batchSize, env, fault);
      st.result.Ok? && st.result.value.progressed ==> file.state.Present? && fault.NoFault?
  {
    if file.state.Present? {
      TailBounds(CheckpointOf(s, file.key), file, batchSize, env.reader(file));
    }
  }

  /** The checkpoint a progressing batch stores lies inside the file, at or
      after where the read started, at the start of a line. */
  lemma BatchCheckpointInFile(s: Snapshot, file: LogFile, batchSize: int, env: Env)
    requires file.state.Present?
    requires BatchStep(s, file, batchSize, env, NoFault).result.Ok?
    requires BatchStep(s, file, batchSize, env, NoFault).result.value.progressed
    ensures var st := BatchStep(s, file, batchSize, env, NoFault);
      var content := file.state.content;
      var start := StartOffset(CheckpointOf(s, file.key), file.state.inode, content);
      && CheckpointOf(st.after, file.key).Some?
      && CheckpointOf(st.after, file.key).value.offset == Some(st.result.value.newOffset)
      && start <= st.result.value.newOffset <= |content|
      && AtLineStart(content, start, st.result.value.newOffset)
  {
    TailBounds(CheckpointOf(s, file.key), file, batchSize, env.reader(file));
  }

  /** After a batch without exception over an existing file, the next
      batch over the unchanged file starts reading at the offset this one
      returned: the checkpoint it committed, or the one it left because the
      read did not progress. */
  lemma BatchNextStart(s: Snapshot, file: LogFile, batchSize: int, env: Env)
    requires file.state.Present?
    ensures var st := BatchStep(s, file, batchSize, env, NoFault);
      && st.result.Ok?
      && StartOffset(CheckpointOf(st.after, file.key), file.state.inode, file.state.content) == st.result.value.newOffset
  {
    var row := CheckpointOf(s, file.key);
    TailBounds(row, file, batchSize, env.reader(file));
    BatchWrites(s, file, batchSize, env);
  }

  /** A second batch with no new data: after a batch that read up to the
      end of the file or up to a partial line, the next batch over the
      unchanged file inserts nothing, does not progress, reports the same
      offset, and neither writes nor commits. */
  lemma BatchCaughtUp(s: Snapshot, file: LogFile, m1: int, env1: Env, m2: int, env2: Env)
    requires file.state.Present?
    requires var st := BatchStep(s, file, m1, env1, NoFault);
      st.result.Ok? && (st.result.value.newOffset == |file.state.content| || st.result.value.stats.incompleteLines == 1)
    ensures var st1 := BatchStep(s, file, m1, env1, NoFault);
      var st2 := BatchStep(st1.after, file, m2, env2, NoFault);
      && st2.result.Ok?
      && st2.result.value.insertedCount == 0 && !st2.result.value.progressed
      && st2.result.value.newOffset == st1.result.value.newOffset
      && st2.after == st1.after && !st2.committed
  {
    var st1 := BatchStep(s, file, m1, env1, NoFault);
    var row1 := CheckpointOf(s, file.key);
    var row2 := CheckpointOf(st1.after, file.key);
    BatchProgressRule(s, file, m1, env1);
    BatchNextStart(s, file, m1, env1);
    TailCaughtUp(row1, row2, file, m1, m2, env1.reader(file), env2.reader(file));
    BatchWrites(s, file, m1, env1);
    BatchProgressRule(st1.after, file, m2, env2);
    BatchWrites(st1.after, file, m2, env2);
  }

  /** Batches concatenate: when a batch without exception that did not stop
      at a partial line is followed by another over the unchanged file with
      the same line handling, the two commit the events of one read with
      both batch sizes together, numbered on from the last identifier, end
      at its offset and sum its counters. */
  lemma BatchesConcatenate(s: Snapshot, file: LogFile, m1: nat, env1: Env, m2: nat, env2: Env)
    requires file.state.Present?
    requires env2.reader(file) == env1.reader(file)
    requires var st := BatchStep(s, file, m1, env1, NoFault);
      st.result.Ok? && st.result.value.stats.incompleteLines == 0
    ensures var st1 := BatchStep(s, file, m1, env1, NoFault);
      var st2 := BatchStep(st1.after, file, m2, env2, NoFault);
      var whole := TailOf(CheckpointOf(s, file.key), file, m1 + m2, env1.reader(file));
      && st2.result.Ok?
      && st1.result.value.insertedCount + st2.result.value.insertedCount == |whole.events|
      && st2.after.events == s.events + Numbered(whole.events, s.lastId + 1)
      && st2.after.lastId == s.lastId + |whole.events|
      && st2.result.value.newOffset == whole.newOffset
      && AddStats(st1.result.value.stats, st2.result.value.stats) == whole.stats
  {
    var st1 := BatchStep(s, file, m1, env1, NoFault);
    var row1 := CheckpointOf(s, file.key);
    var row2 := CheckpointOf(st1.after, file.key);
    var t1 := TailOf(row1, file, m1, env1.reader(file));
    var t2 := TailOf(row2, file, m2, env2.reader(file));
    BatchProgressRule(s, file, m1, env1);
    BatchNextStart(s, file, m1, env1);
    TailResumes(row1, row2, file, m1, m2, env1.reader(file));
    BatchProgressRule(st1.after, file, m2, env2);
    BatchWrites(s, file, m1, env1);
    BatchWrites(st1.after, file, m2, env2);
    NumberedConcatenates(t1.events, t2.events, s.lastId + 1);
  }

  /** At most `maxBatchesPerFile` batches run, and always at least one. */
  function BatchCap(maxBatchesPerFile: int): nat {
    if maxBatchesPerFile <= 1 then 1 else maxBatchesPerFile
  }

  /** Inserted events summed over batch results. */
  function SumInserted(trace: seq<BatchResult>): nat {
    if |trace| == 0 then 0 else trace[0].insertedCount + SumInserted(trace[1..])
  }

  /** All five counters summed over batch results. */
  function SumStats(trace: seq<BatchResult>): Stats {
    if |trace| == 0 then NoStats else AddStats(trace[0].stats, SumStats(trace[1..]))
  }

  /** The drain runs at least one batch and at most `BatchCap` of them,
      counting the one that raised; its batch count counts those that
      returned. */
  lemma {:induction false} DrainLength(step: (Snapshot, nat) -> Step, s: Snapshot, batchSize: int, remaining: int, k: nat, acc: FileResult)
    ensures var d := DrainWith(step, s, batchSize, remaining, k, acc);
      && 1 <= |d.trace| + (if d.error.Some? then 1 else 0) <= BatchCap(remaining)
      && d.total.batchCount == acc.batchCount + |d.trace|
    decreases if remaining < 0 then 0 else remaining
  {
    var st := step(s, k);
    if st.result.Ok? {
      var b := st.result.value;
      if !(!b.progressed || b.insertedCount < batchSize || remaining - 1 <= 0) {
        DrainLength(step, st.after, batchSize, remaining - 1, k + 1, AddBatch(acc, b));
      }
    }
  }

  /** Every batch before the last one, and every batch before one that
      raised, progressed and inserted a full batch. */
  predicate FullUntilLast(d: Drained, batchSize: int) {
    forall i | 0 <= i < |d.trace| && (i < |d.trace| - 1 || d.error.Some?) ::
      d.trace[i].progressed && d.trace[i].insertedCount >= batchSize
  }

  /** The drain continues only after a batch that progressed and filled
      the batch. */
  lemma {:induction false} DrainContinuesOnlyOnFullBatches(step: (Snapshot, nat) -> Step, s: Snapshot, batchSize: int, remaining: int, k: nat, acc: FileResult)
    ensures FullUntilLast(DrainWith(step, s, batchSize, remaining, k, acc), batchSize)
    decreases if remaining < 0 then 0 else remaining
  {
    var st := step(s, k);
    if st.result.Ok? {
      var b := st.result.value;
      if !(!b.progressed || b.insertedCount < batchSize || remaining - 1 <= 0) {
        DrainContinuesOnlyOnFullBatches(step, st.after, batchSize, remaining - 1, k + 1, AddBatch(acc, b));
        var rest := DrainWith(step, st.after, batchSize, remaining - 1, k + 1, AddBatch(acc, b));
        var d := DrainWith(step, s, batchSize, remaining, k, acc);
        assert FullUntilLast(rest, batchSize);
        assert d.trace == [b] + rest.trace && d.error == rest.error;
        forall i | 0 <= i < |d.trace| && (i < |d.trace| - 1 || d.error.Some?)
          ensures d.trace[i].progressed && d.trace[i].insertedCount >= batchSize
        {
          if i > 0 {
            assert d.trace[i] == rest.trace[i - 1];
          }
        }
      }
    }
  }

  /** When no batch raised, the last batch meets a stop condition: it did
      not progress, it inserted fewer than `batchSize` events, or the
      budget of `BatchCap` batches is spent. */
  lemma {:induction false} DrainStopRule(step: (Snapshot, nat) -> Step, s: Snapshot, batchSize: int, remaining: int, k: nat, acc: FileResult)
    ensures var d := DrainWith(step, s, batchSize, remaining, k, acc);
      d.error.None? ==>
        && |d.trace| >= 1
        && var last := d.trace[|d.trace| - 1];
           !last.progressed || last.insertedCount < batchSize || |d.trace| == BatchCap(remaining)
    decreases if remaining < 0 then 0 else remaining
  {
    var st := step(s, k);
    if st.result.Ok? {
      var b := st.result.value;
      if !(!b.progressed || b.insertedCount < batchSize || remaining - 1 <= 0) {
        var rest := DrainWith(step, st.after, batchSize, remaining - 1, k + 1, AddBatch(acc, b));
        DrainStopRule(step, st.after, batchSize, remaining - 1, k + 1, AddBatch(acc, b));
        var d := DrainWith(step, s, batchSize, remaining, k, acc);
        assert d.trace == [b] + rest.trace && d.error == rest.error;
        if rest.error.None? {
          assert d.trace[|d.trace| - 1] == rest.trace[|rest.trace| - 1];
        }
      }
    }
  }

  /** The drain's inserted count is the running count plus the sum over
      the batches that returned. */
  lemma {:induction false} DrainInserted(step: (Snapshot, nat) -> Step, s: Snapshot, batchSize: int, remaining: int, k: nat, acc: FileResult)
    ensures var d := DrainWith(step, s, batchSize, remaining, k, acc);
      d.total.insertedCount == acc.insertedCount + SumInserted(d.trace)
    decreases if remaining < 0 then 0 else remaining
  {
    var st := step(s, k);
    if st.result.Ok? {
      var b := st.result.value;
      var d := DrainWith(step, s, batchSize, remaining, k, acc);
      if !(!b.progressed || b.insertedCount < batchSize || remaining - 1 <= 0) {
        var rest := DrainWith(step, st.after, batchSize, remaining - 1, k + 1, AddBatch(acc, b));
        DrainInserted(step, st.after, batchSize, remaining - 1, k + 1, AddBatch(acc, b));
        assert d.trace[1..] == rest.trace;
      } else {
        assert d.trace[1..] == [];
      }
    }
  }

  /** Adding a batch's counters and then the rest's is adding their sum. */
  lemma AddStatsRegroup(a: Stats, b: Stats, c: Stats)
    ensures AddStatsExceptValidation(AddStatsExceptValidation(a, b), c) == AddStatsExceptValidation(a, AddStats(b, c))
  {
  }

  /** The drain's counters are the running counters plus the sums over the
      batches that returned, except `validationErrors`, which keeps its
      starting value. */
  lemma {:induction false} DrainStats(step: (Snapshot, nat) -> Step, s: Snapshot, batchSize: int, remaining: int, k: nat, acc: FileResult)
    ensures var d := DrainWith(step, s, batchSize, remaining, k, acc);
      && d.total.stats == AddStatsExceptValidation(acc.stats, SumStats(d.trace))
      && d.total.stats.validationErrors == acc.stats.validationErrors
    decreases if remaining < 0 then 0 else remaining
  {
    var st := step(s, k);
    if st.result.Ok? {
      var b := st.result.value;
      var d := DrainWith(step, s, batchSize, remaining, k, acc);
      if !(!b.progressed || b.insertedCount < batchSize || remaining - 1 <= 0) {
        var rest := DrainWith(step, st.after, batchSize, remaining - 1, k + 1, AddBatch(acc, b));
        DrainStats(step, st.after, batchSize, remaining - 1, k + 1, AddBatch(acc, b));
        assert d.trace[1..] == rest.trace;
        assert SumStats(d.trace) == AddStats(b.stats, SumStats(rest.trace));
        AddStatsRegroup(acc.stats, b.stats, SumStats(rest.trace));
      } else {
        assert d.trace[1..] == [];
        assert SumStats(d.trace) == AddStats(b.stats, NoStats);
      }
    }
  }

  /** A drained file never reports validation errors: the drain starts
      from zero and does not add them. */
  lemma DrainReportsNoValidationErrors(s: Snapshot, file: LogFile, batchSize: int, maxBatchesPerFile: int, envs: nat -> Env, faults: nat -> Fault)
    ensures Drain(s, file, batchSize, maxBatchesPerFile, envs, faults).total.stats.validationErrors == 0
  {
    DrainStats(BatchesOf(file, batchSize, envs, faults), s, batchSize, maxBatchesPerFile, 0, FileResult(0, 0, NoStats));
  }
}
