/** The checkpoint table `file_offsets`, keyed by resolved path
    (`repositories/file_offsets.py`). */
module FileOffsets {
  import opened Wrappers
  import opened Schemas

  class FileOffsetTable {
    /** The stored rows, by path. */
    var rows: map<string, FileOffsetRow>

    constructor ()
      ensures rows == map[]
    {
      rows := map[];
    }

    /** `get_offset`: the row stored under `path`, or `None`. */
    function GetOffset(path: string): (r: Option<FileOffsetRow>)
      reads this
      ensures r.Some? <==> path in rows
      ensures r.Some? ==> r.value == rows[path]
    {
      if path in rows then Some(rows[path]) else None
    }

    /** `upsert_offset`: a new row for an unknown path, otherwise the stored
        row's inode, offset and update time are overwritten in place. */
    method UpsertOffset(path: string, inode: int, offset: nat, updatedAt: string)
      modifies this
      ensures rows == old(rows)[path := FileOffsetRow(Some(inode), Some(offset), Some(updatedAt))]
      ensures GetOffset(path) == Some(FileOffsetRow(Some(inode), Some(offset), Some(updatedAt)))
      ensures forall p | p != path :: GetOffset(p) == old(GetOffset(p))
      ensures rows.Keys == old(rows.Keys) + {path}
    {
      var row := GetOffset(path);
      if row.None? {
        rows := rows[path := FileOffsetRow(Some(inode), Some(offset), Some(updatedAt))];
      } else {
        var updated := row.value.(inode := Some(inode), offset := Some(offset), updatedAt := Some(updatedAt));
        rows := rows[path := updated];
      }
    }
  }
}
