/** One scan pass over the discovered log files (`ingest_once` in
    `ingest/ingest.py`): each file is drained in turn; a file whose drain
    raises is counted as failed and the pass goes on with the next one. */
module Ingest {
  import opened Wrappers
  import opened Schemas
  import opened Tail
  import opened Store
  import opened Batch

  const NoIngest := IngestResult(0, 0, 0, 0, NoStats, map[])

  /** What the drain of one file hands back to the pass. */
  function Outcome(d: Drained): Result<FileResult, BatchError> {
    if d.error.Some? then Err(d.error.value) else Ok(d.total)
  }

  /** How the pass records one file's outcome under its resolved path. */
  function Tally(acc: IngestResult, key: string, outcome: Result<FileResult, BatchError>): IngestResult {
    match outcome
      case Err(_) => acc.(filesFailed := acc.filesFailed + 1)
      case Ok(f) =>
        acc.(filesScanned := acc.filesScanned + 1,
             totalInserted := acc.totalInserted + f.insertedCount,
             totalBatches := acc.totalBatches + f.batchCount,
             stats := AddStats(acc.stats, f.stats),
             perFile := acc.perFile[key := f])
  }

  /** The pass's result, each file's outcome in path order, the committed
      tables afterwards and the number of commits. */
  datatype Scanned = Scanned(result: IngestResult, outcomes: seq<Result<FileResult, BatchError>>, after: Snapshot, commits: nat)

  /** The pass over `files`, the first of which is file number `i` of the
      pass, for any drain: `run(s, file, i)` drains file number `i`
      against the committed tables `s`. */
  function ScanWith(run: (Snapshot, LogFile, nat) -> Drained, files: seq<LogFile>, s: Snapshot, i: nat, acc: IngestResult): Scanned
    decreases |files|
  {
    if |files| == 0 then Scanned(acc, [], s, 0)
    else
      var d := run(s, files[0], i);
      var rest := ScanWith(run, files[1..], d.after, i + 1, Tally(acc, files[0].key, Outcome(d)));
      rest.(outcomes := [Outcome(d)] + rest.outcomes, commits := d.commits + rest.commits)
  }

  /** The drain of the `i`-th file with the environments (clock readings)
      and faults of its batches. */
  function DrainsOf(batchSize: int, maxBatchesPerFile: int, envs: nat -> nat -> Env, faults: nat -> nat -> Fault): (Snapshot, LogFile, nat) -> Drained {
    (s: Snapshot, file: LogFile, i: nat) => Drain(s, file, batchSize, maxBatchesPerFile, envs(i), faults(i))
  }

  /** `ingest_once` over the committed tables `s` and the discovered
      files. */
  function Scan(s: Snapshot, files: seq<LogFile>, batchSize: int, maxBatchesPerFile: int, envs: nat -> nat -> Env, faults: nat -> nat -> Fault): Scanned {
    ScanWith(DrainsOf(batchSize, maxBatchesPerFile, envs, faults), files, s, 0, NoIngest)
  }

  /** `run` drains files as `ingest_file_caught_up` does. */
  ghost predicate RunsDrainsOf(run: (Snapshot, LogFile, nat) -> Drained, batchSize: int, maxBatchesPerFile: int, envs: nat -> nat -> Env, faults: nat -> nat -> Fault) {
    forall s: Snapshot, file: LogFile, i: nat {:trigger Drain(s, file, batchSize, maxBatchesPerFile, envs(i), faults(i))} ::
      run(s, file, i) == Drain(s, file, batchSize, maxBatchesPerFile, envs(i), faults(i))
  }

  /** `ingest_once`: drain every discovered file in order, adding each
      drained file's totals and recording it by path; a file whose drain
      raises only bumps the failure count. */
  method IngestOnce(db: Database, files: seq<LogFile>, batchSize: int, maxBatchesPerFile: int, envs: nat -> nat -> Env, faults: nat -> nat -> Fault)
    returns (result: IngestResult)
    requires db.Valid() && db.Clean()
    modifies db, db.offsets
    ensures db.Valid() && db.Clean()
    ensures var sc := Scan(old(db.State()), files, batchSize, maxBatchesPerFile, envs, faults);
      && result == sc.result && db.State() == sc.after && db.commits == old(db.commits) + sc.commits
  {
    result := ScanFiles(db, files, batchSize, maxBatchesPerFile, envs, faults, DrainsOf(batchSize, maxBatchesPerFile, envs, faults));
  }

  /** One file's drain, seen through `run`. */
  method RunFile(db: Database, file: LogFile, i: nat, batchSize: int, maxBatchesPerFile: int, envs: nat -> nat -> Env, faults: nat -> nat -> Fault,
                 ghost run: (Snapshot, LogFile, nat) -> Drained)
    returns (outcome: Result<FileResult, BatchError>)
    requires db.Valid() && db.Clean()
    requires RunsDrainsOf(run, batchSize, maxBatchesPerFile, envs, faults)
    modifies db, db.offsets
    ensures db.Valid() && db.Clean()
    ensures var d := run(old(db.State()), file, i);
      && outcome == Outcome(d) && db.State() == d.after && db.commits == old(db.commits) + d.commits
  {
    outcome := IngestFileCaughtUp(db, file, batchSize, maxBatchesPerFile, envs(i), faults(i));
  }

  /** The loop of `ingest_once`, proved against the pass over any `run`
      that drains files as the source does. */
  method ScanFiles(db: Database, files: seq<LogFile>, batchSize: int, maxBatchesPerFile: int, envs: nat -> nat -> Env, faults: nat -> nat -> Fault,
                   ghost run: (Snapshot, LogFile, nat) -> Drained)
    returns (result: IngestResult)
    requires db.Valid() && db.Clean()
    requires RunsDrainsOf(run, batchSize, maxBatchesPerFile, envs, faults)
    modifies db, db.offsets
    ensures db.Valid() && db.Clean()
    ensures var sc := ScanWith(run, files, old(db.State()), 0, NoIngest);
      && result == sc.result && db.State() == sc.after && db.commits == old(db.commits) + sc.commits
  {
    result := NoIngest;
    ghost var whole := ScanWith(run, files, db.State(), 0, result);
    ghost var commits: nat := 0;
    for i := 0 to |files|
      invariant db.Valid() && db.Clean()
      invariant var rest := ScanWith(run, files[i..], db.State(), i, result);
        && whole.result == rest.result && whole.after == rest.after
        && whole.commits == commits + rest.commits
      invariant db.commits == old(db.commits) + commits
    {
      ghost var before := db.State();
      ghost var acc := result;
      var outcome := RunFile(db, files[i], i, batchSize, maxBatchesPerFile, envs, faults, run);
      ghost var d := run(before, files[i], i);
      commits := commits + d.commits;
      match outcome {
        case Ok(fileResult) =>
          result := result.(filesScanned := result.filesScanned + 1);
          result := result.(totalInserted := result.totalInserted + fileResult.insertedCount);
          result := result.(totalBatches := result.totalBatches + fileResult.batchCount);
          result := result.(stats := AddStats(result.stats, fileResult.stats));
          result := result.(perFile := result.perFile[files[i].key := fileResult]);
        case Err(_) =>
          result := result.(filesFailed := result.filesFailed + 1);
      }
      assert result == Tally(acc, files[i].key, Outcome(d));
      assert files[i..][0] == files[i] && files[i..][1..] == files[i + 1..];
      ScanStep(run, files[i..], before, i, acc);
    }
  }

  /** Unfolding the pass at its first file. */
  lemma ScanStep(run: (Snapshot, LogFile, nat) -> Drained, files: seq<LogFile>, s: Snapshot, i: nat, acc: IngestResult)
    requires |files| > 0
    ensures var d := run(s, files[0], i);
      var sc := ScanWith(run, files, s, i, acc);
      var rest := ScanWith(run, files[1..], d.after, i + 1, Tally(acc, files[0].key, Outcome(d)));
      && sc.result == rest.result && sc.after == rest.after && sc.commits == d.commits + rest.commits
      && sc.outcomes == [Outcome(d)] + rest.outcomes
  {
  }

  /** Files whose drain returned. */
  function CountOk(outcomes: seq<Result<FileResult, BatchError>>): nat
    ensures CountOk(outcomes) <= |outcomes|
  {
    if |outcomes| == 0 then 0 else (if outcomes[0].Ok? then 1 else 0) + CountOk(outcomes[1..])
  }

  /** Inserted events summed over the files whose drain returned. */
  function SumOkInserted(outcomes: seq<Result<FileResult, BatchError>>): nat {
    if |outcomes| == 0 then 0 else (if outcomes[0].Ok? then outcomes[0].value.insertedCount else 0) + SumOkInserted(outcomes[1..])
  }

  /** Batches summed over the files whose drain returned. */
  function SumOkBatches(outcomes: seq<Result<FileResult, BatchError>>): nat {
    if |outcomes| == 0 then 0 else (if outcomes[0].Ok? then outcomes[0].value.batchCount else 0) + SumOkBatches(outcomes[1..])
  }

  /** All five counters summed over the files whose drain returned. */
  function SumOkStats(outcomes: seq<Result<FileResult, BatchError>>): Stats {
    if |outcomes| == 0 then NoStats else AddStats(if outcomes[0].Ok? then outcomes[0].value.stats else NoStats, SumOkStats(outcomes[1..]))
  }

  /** Every file gets an outcome, in order, and is counted once: as
      scanned when its drain returned and as failed when it raised, so a
      failing file does not end the pass. */
  lemma {:induction false} ScanCounts(run: (Snapshot, LogFile, nat) -> Drained, files: seq<LogFile>, s: Snapshot, i: nat, acc: IngestResult)
    ensures var sc := ScanWith(run, files, s, i, acc);
      && |sc.outcomes| == |files|
      && sc.result.filesScanned == acc.filesScanned + CountOk(sc.outcomes)
      && sc.result.filesFailed == acc.filesFailed + (|sc.outcomes| - CountOk(sc.outcomes))
      && sc.result.filesScanned + sc.result.filesFailed == acc.filesScanned + acc.filesFailed + |files|
    decreases |files|
  {
    if |files| > 0 {
      var d := run(s, files[0], i);
      var next := Tally(acc, files[0].key, Outcome(d));
      ScanCounts(run, files[1..], d.after, i + 1, next);
      var rest := ScanWith(run, files[1..], d.after, i + 1, next);
      var sc := ScanWith(run, files, s, i, acc);
      assert sc.outcomes[1..] == rest.outcomes;
    }
  }

  /** The pass's inserted and batch totals are the starting totals plus the
      sums over the files whose drain returned. */
  lemma {:induction false} ScanTotals(run: (Snapshot, LogFile, nat) -> Drained, files: seq<LogFile>, s: Snapshot, i: nat, acc: IngestResult)
    ensures var sc := ScanWith(run, files, s, i, acc);
      && sc.result.totalInserted == acc.totalInserted + SumOkInserted(sc.outcomes)
      && sc.result.totalBatches == acc.totalBatches + SumOkBatches(sc.outcomes)
    decreases |files|
  {
    if |files| > 0 {
      var d := run(s, files[0], i);
      var next := Tally(acc, files[0].key, Outcome(d));
      ScanTotals(run, files[1..], d.after, i + 1, next);
      var rest := ScanWith(run, files[1..], d.after, i + 1, next);
      var sc := ScanWith(run, files, s, i, acc);
      assert sc.outcomes[0] == Outcome(d) && sc.outcomes[1..] == rest.outcomes;
    }
  }

  /** All five counters of the pass are the starting counters plus the
      sums over the files whose drain returned. */
  lemma {:induction false} ScanStats(run: (Snapshot, LogFile, nat) -> Drained, files: seq<LogFile>, s: Snapshot, i: nat, acc: IngestResult)
    ensures var sc := ScanWith(run, files, s, i, acc);
      sc.result.stats == AddStats(acc.stats, SumOkStats(sc.outcomes))
    decreases |files|
  {
    if |files| > 0 {
      var d := run(s, files[0], i);
      var next := Tally(acc, files[0].key, Outcome(d));
      ScanStats(run, files[1..], d.after, i + 1, next);
      var rest := ScanWith(run, files[1..], d.after, i + 1, next);
      var sc := ScanWith(run, files, s, i, acc);
      assert sc.outcomes[0] == Outcome(d) && sc.outcomes[1..] == rest.outcomes;
    }
  }

  /** The paths of the files whose drain returned. */
  function OkKeys(files: seq<LogFile>, outcomes: seq<Result<FileResult, BatchError>>): set<string>
    requires |files| == |outcomes|
  {
    if |files| == 0 then {}
    else (if outcomes[0].Ok? then {files[0].key} else {}) + OkKeys(files[1..], outcomes[1..])
  }

  /** A path is among `OkKeys` exactly when some file with that path was
      drained without exception. */
  lemma {:induction false} OkKeysMembers(files: seq<LogFile>, outcomes: seq<Result<FileResult, BatchError>>, key: string)
    requires |files| == |outcomes|
    ensures key in OkKeys(files, outcomes) <==> exists j | 0 <= j < |files| :: files[j].key == key && outcomes[j].Ok?
    decreases |files|
  {
    if |files| > 0 {
      OkKeysMembers(files[1..], outcomes[1..], key);
      if exists j | 0 <= j < |files| - 1 :: files[1..][j].key == key && outcomes[1..][j].Ok? {
        var j :| 0 <= j < |files| - 1 && files[1..][j].key == key && outcomes[1..][j].Ok?;
        assert files[j + 1].key == key && outcomes[j + 1].Ok?;
      }
      if exists j | 0 <= j < |files| :: files[j].key == key && outcomes[j].Ok? {
        var j :| 0 <= j < |files| && files[j].key == key && outcomes[j].Ok?;
        if j > 0 {
          assert files[1..][j - 1].key == key && outcomes[1..][j - 1].Ok?;
        }
      }
    }
  }

  /** The paths recorded in `perFile` are those recorded before plus the
      paths of the files drained without exception: one entry per drained
      path. */
  lemma {:induction false} ScanPerFileKeys(run: (Snapshot, LogFile, nat) -> Drained, files: seq<LogFile>, s: Snapshot, i: nat, acc: IngestResult)
    ensures var sc := ScanWith(run, files, s, i, acc);
      && |sc.outcomes| == |files|
      && sc.result.perFile.Keys == acc.perFile.Keys + OkKeys(files, sc.outcomes)
    decreases |files|
  {
    ScanCounts(run, files, s, i, acc);
    if |files| > 0 {
      var d := run(s, files[0], i);
      var next := Tally(acc, files[0].key, Outcome(d));
      ScanPerFileKeys(run, files[1..], d.after, i + 1, next);
      var rest := ScanWith(run, files[1..], d.after, i + 1, next);
      var sc := ScanWith(run, files, s, i, acc);
      assert sc.outcomes[0] == Outcome(d) && sc.outcomes[1..] == rest.outcomes;
      assert next.perFile.Keys == acc.perFile.Keys + (if Outcome(d).Ok? then {files[0].key} else {});
    }
  }

  /** Whether no file after the `j`-th with the same path was drained
      without exception. */
  predicate LastOkFor(files: seq<LogFile>, outcomes: seq<Result<FileResult, BatchError>>, j: nat)
    requires j < |files| == |outcomes|
  {
    forall j' | j < j' < |files| :: files[j'].key == files[j].key ==> outcomes[j'].Err?
  }

  /** The entry recorded for a path is the result of the last file with
      that path whose drain returned. */
  lemma {:induction false} ScanPerFileValues(run: (Snapshot, LogFile, nat) -> Drained, files: seq<LogFile>, s: Snapshot, i: nat, acc: IngestResult, j: nat)
    requires j < |files|
    ensures var sc := ScanWith(run, files, s, i, acc);
      && |sc.outcomes| == |files|
      && (sc.outcomes[j].Ok? && LastOkFor(files, sc.outcomes, j) ==>
            files[j].key in sc.result.perFile && sc.result.perFile[files[j].key] == sc.outcomes[j].value)
    decreases |files|
  {
    ScanCounts(run, files, s, i, acc);
    var d := run(s, files[0], i);
    var next := Tally(acc, files[0].key, Outcome(d));
    var sc := ScanWith(run, files, s, i, acc);
    ScanCounts(run, files[1..], d.after, i + 1, next);
    var rest := ScanWith(run, files[1..], d.after, i + 1, next);
    assert sc.outcomes == [Outcome(d)] + rest.outcomes;
    if sc.outcomes[j].Ok? && LastOkFor(files, sc.outcomes, j) {
      if j == 0 {
        ScanKeepsEntry(run, files[1..], d.after, i + 1, next, files[0].key);
        forall j' | 0 <= j' < |files| - 1 && files[1..][j'].key == files[0].key
          ensures rest.outcomes[j'].Err?
        {
          assert sc.outcomes[j' + 1] == rest.outcomes[j'];
        }
      } else {
        ScanPerFileValues(run, files[1..], d.after, i + 1, next, j - 1);
        assert sc.outcomes[j] == rest.outcomes[j - 1];
        forall j' | j - 1 < j' < |files| - 1 && files[1..][j'].key == files[1..][j - 1].key
          ensures rest.outcomes[j'].Err?
        {
          assert sc.outcomes[j' + 1] == rest.outcomes[j'];
        }
      }
    }
  }

  /** A recorded path that no file of the pass drains without exception
      keeps its entry. */
  lemma {:induction false} ScanKeepsEntry(run: (Snapshot, LogFile, nat) -> Drained, files: seq<LogFile>, s: Snapshot, i: nat, acc: IngestResult, key: string)
    requires key in acc.perFile
    ensures var sc := ScanWith(run, files, s, i, acc);
      && |sc.outcomes| == |files|
      && ((forall j | 0 <= j < |files| :: files[j].key == key ==> sc.outcomes[j].Err?) ==>
            key in sc.result.perFile && sc.result.perFile[key] == acc.perFile[key])
    decreases |files|
  {
    ScanCounts(run, files, s, i, acc);
    if |files| > 0 {
      var d := run(s, files[0], i);
      var next := Tally(acc, files[0].key, Outcome(d));
      var sc := ScanWith(run, files, s, i, acc);
      ScanKeepsEntry(run, files[1..], d.after, i + 1, next, key);
      var rest := ScanWith(run, files[1..], d.after, i + 1, next);
      assert sc.outcomes == [Outcome(d)] + rest.outcomes;
      if forall j | 0 <= j < |files| :: files[j].key == key ==> sc.outcomes[j].Err? {
        assert files[0].key == key ==> sc.outcomes[0].Err?;
        forall j | 0 <= j < |files| - 1 && files[1..][j].key == key
          ensures rest.outcomes[j].Err?
        {
          assert sc.outcomes[j + 1] == rest.outcomes[j];
        }
      }
    }
  }

  /** The drain leaves `validationErrors` at zero, so every pass reports
      zero validation errors, however many invalid lines it skipped. */
  lemma ScanReportsNoValidationErrors(s: Snapshot, files: seq<LogFile>, batchSize: int, maxBatchesPerFile: int, envs: nat -> nat -> Env, faults: nat -> nat -> Fault)
    ensures Scan(s, files, batchSize, maxBatchesPerFile, envs, faults).result.stats.validationErrors == 0
  {
    var run := DrainsOf(batchSize, maxBatchesPerFile, envs, faults);
    forall s': Snapshot, file: LogFile, i: nat
      ensures run(s', file, i).total.stats.validationErrors == 0
    {
      DrainReportsNoValidationErrors(s', file, batchSize, maxBatchesPerFile, envs(i), faults(i));
    }
    ScanStats(run, files, s, 0, NoIngest);
    OkDrainsAddNoValidationErrors(run, files, s, 0, NoIngest);
  }

  /** When no drain reports validation errors, neither do their sums. */
  lemma {:induction false} OkDrainsAddNoValidationErrors(run: (Snapshot, LogFile, nat) -> Drained, files: seq<LogFile>, s: Snapshot, i: nat, acc: IngestResult)
    requires forall s': Snapshot, file: LogFile, i': nat :: run(s', file, i').total.stats.validationErrors == 0
    ensures SumOkStats(ScanWith(run, files, s, i, acc).outcomes).validationErrors == 0
    decreases |files|
  {
    if |files| > 0 {
      var d := run(s, files[0], i);
      var next := Tally(acc, files[0].key, Outcome(d));
      OkDrainsAddNoValidationErrors(run, files[1..], d.after, i + 1, next);
      var rest := ScanWith(run, files[1..], d.after, i + 1, next);
      var sc := ScanWith(run, files, s, i, acc);
      assert sc.outcomes[0] == Outcome(d) && sc.outcomes[1..] == rest.outcomes;
    }
  }
}
