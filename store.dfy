/** The SQLite store the ingest path writes through one session at a time:
    the `events` table with its autoincrement key and the `file_offsets`
    checkpoint table. The session sees its own pending writes; `commit` makes
    them durable and `rollback` returns to what was last committed. */
module Store {
  import opened Schemas
  import opened FileOffsets

  /** Rows for `batch` with consecutive identifiers from `firstId` on, in
      batch order, as the autoincrement key assigns them. */
  function Numbered(batch: seq<Event>, firstId: int): seq<Row> {
    seq(|batch|, i requires 0 <= i < |batch| => Row(firstId + i, batch[i]))
  }

  /** Identifiers increase along the table and none exceeds `lastId`, the
      last identifier handed out: read from the newest row backwards, each
      row's identifier is at most the bound and bounds the rows before it. */
  predicate IdsBelow(rows: seq<Row>, lastId: int)
    decreases |rows|
  {
    |rows| == 0 || (rows[|rows| - 1].id <= lastId && IdsBelow(rows[..|rows| - 1], rows[|rows| - 1].id - 1))
  }

  /** Under `IdsBelow`, identifiers are strictly increasing and bounded. */
  lemma {:induction false} IdsBelowIncreasing(rows: seq<Row>, lastId: int)
    requires IdsBelow(rows, lastId)
    ensures forall i, j | 0 <= i < j < |rows| :: rows[i].id < rows[j].id
    ensures forall i | 0 <= i < |rows| :: rows[i].id <= lastId
    decreases |rows|
  {
    if |rows| > 0 {
      var n := |rows| - 1;
      IdsBelowIncreasing(rows[..n], rows[n].id - 1);
      assert forall i | 0 <= i < n :: rows[i] == rows[..n][i];
    }
  }

  /** Appending freshly numbered rows keeps identifiers increasing and
      below the new last identifier. */
  lemma {:induction false} NumberedKeepsIdsBelow(rows: seq<Row>, lastId: int, batch: seq<Event>)
    requires IdsBelow(rows, lastId)
    ensures IdsBelow(rows + Numbered(batch, lastId + 1), lastId + |batch|)
    decreases |batch|
  {
    if |batch| == 0 {
      assert rows + Numbered(batch, lastId + 1) == rows;
    } else {
      var n := |batch| - 1;
      NumberedKeepsIdsBelow(rows, lastId, batch[..n]);
      var all := rows + Numbered(batch, lastId + 1);
      var front := rows + Numbered(batch[..n], lastId + 1);
      assert |all| == |front| + 1;
      assert forall i | 0 <= i < |front| :: all[i] == front[i];
      assert all[..|all| - 1] == front;
      assert all[|all| - 1].id == lastId + |batch|;
    }
  }

  /** Numbering two batches one after the other numbers their concatenation:
      the second batch's identifiers continue where the first one's end. */
  lemma NumberedConcatenates(a: seq<Event>, b: seq<Event>, firstId: int)
    ensures Numbered(a + b, firstId) == Numbered(a, firstId) + Numbered(b, firstId + |a|)
  {
  }

  /** What a new session sees: the committed tables. */
  datatype Snapshot = Snapshot(events: seq<Row>, lastId: int, offsets: map<string, FileOffsetRow>)

  class Database {
    /** The `events` table as the open session sees it. */
    var events: seq<Row>
    /** The last identifier the session handed out. */
    var lastId: int
    /** The `file_offsets` table as the open session sees it. */
    const offsets: FileOffsetTable
    /** The tables as last committed. */
    var committedEvents: seq<Row>
    var committedLastId: int
    var committedOffsets: map<string, FileOffsetRow>
    /** How many commits have happened. */
    var commits: nat

    /** Identifiers are unique and increasing in both views. */
    predicate Valid()
      reads this
    {
      IdsBelow(events, lastId) && IdsBelow(committedEvents, committedLastId)
    }

    /** The session holds no pending write. */
    predicate Clean()
      reads this, offsets
    {
      events == committedEvents && lastId == committedLastId && offsets.rows == committedOffsets
    }

    /** The committed tables. */
    function State(): Snapshot
      reads this
    {
      Snapshot(committedEvents, committedLastId, committedOffsets)
    }

    constructor ()
      ensures Valid() && Clean() && fresh(offsets)
      ensures State() == Snapshot([], 0, map[]) && commits == 0
    {
      events := [];
      lastId := 0;
      offsets := new FileOffsetTable();
      committedEvents := [];
      committedLastId := 0;
      committedOffsets := map[];
      commits := 0;
    }

    /** `insert_events_batch`: adds the events to the session, numbered
        after the last identifier, and returns how many there were. */
    method InsertEventsBatch(batch: seq<Event>) returns (count: nat)
      requires Valid()
      modifies this
      ensures Valid()
      ensures count == |batch|
      ensures events == old(events) + Numbered(batch, old(lastId) + 1)
      ensures lastId == old(lastId) + |batch|
      ensures State() == old(State()) && commits == old(commits)
    {
      NumberedKeepsIdsBelow(events, lastId, batch);
      events := events + Numbered(batch, lastId + 1);
      lastId := lastId + |batch|;
      count := |batch|;
    }

    /** `session.commit()`: the session's view becomes the committed one. */
    method Commit()
      requires Valid()
      modifies this
      ensures Valid() && Clean()
      ensures State() == Snapshot(old(events), old(lastId), old(offsets.rows))
      ensures events == old(events) && lastId == old(lastId)
      ensures commits == old(commits) + 1
    {
      committedEvents := events;
      committedLastId := lastId;
      committedOffsets := offsets.rows;
      commits := commits + 1;
    }

    /** `session.rollback()`: pending writes are dropped and the session
        sees the committed tables again. */
    method Rollback()
      requires Valid()
      modifies this, offsets
      ensures Valid() && Clean()
      ensures State() == old(State()) && commits == old(commits)
    {
      events := committedEvents;
      lastId := committedLastId;
      offsets.rows := committedOffsets;
    }
  }
}
