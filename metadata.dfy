/** The application list (`handlers/metadata.py`): the visible
    subdirectories of the log directory, ordered by their case-folded
    names. The directory listing is an input: the entries, or the `OSError`
    that opening the directory raises. */
module Metadata {
  import opened Wrappers
  import opened Text

  /** One `os.scandir` entry; `isDir` is `is_dir(follow_symlinks=False)`,
      so a symbolic link to a directory is not one. */
  datatype DirEntry = DirEntry(name: string, isDir: bool)

  /** The `OSError` subclasses opening a directory can raise. */
  datatype OsError = FileNotFound | PermissionDenied | NotADirectory | OtherOsError(errno: int)

  /** What `os.scandir(log_dir)` gives: the entries, or the error it raises. */
  datatype Listing = Listed(entries: seq<DirEntry>) | Unlistable(error: OsError)

  /** What leaves `get_apps_from_fs` when the directory cannot be listed:
      `LogDirUnavailableError` for the two errors it catches, the original
      `OSError` for any other. */
  datatype AppsError = LogDirUnavailable(logDir: string) | Raised(error: OsError)

  /** The errors the `except` clause names. */
  predicate Caught(e: OsError) {
    e.FileNotFound? || e.PermissionDenied?
  }

  predicate Hidden(name: string) {
    IsPrefix(".", name)
  }

  predicate IsApp(e: DirEntry) {
    !Hidden(e.name) && e.isDir
  }

  /** The names of the application directories, in listing order. */
  function AppNames(entries: seq<DirEntry>): (r: seq<string>)
    ensures |r| <= |entries|
  {
    if |entries| == 0 then []
    else
      var last := entries[|entries| - 1];
      AppNames(entries[..|entries| - 1]) + (if IsApp(last) then [last.name] else [])
  }

  /** `key=str.casefold` ordering: `a` sorts strictly before `b`. */
  predicate FoldLt(a: string, b: string) {
    StrLt(CaseFold(a), CaseFold(b))
  }

  predicate FoldSorted(names: seq<string>) {
    forall i, j | 0 <= i < j < |names| :: !FoldLt(names[j], names[i])
  }

  /** `list.sort(key=str.casefold)`: a stable sort on the case-folded
      names. Each name goes in front of the already sorted later names
      whose key is not smaller, so names with equal keys keep their
      order. */
  function SortByFold(names: seq<string>): seq<string> {
    if |names| == 0 then [] else InsertBefore(names[0], SortByFold(names[1..]))
  }

  /** Places `x` before the first name whose key is not smaller. */
  function InsertBefore(x: string, sorted: seq<string>): seq<string> {
    if |sorted| == 0 then [x]
    else if FoldLt(sorted[0], x) then [sorted[0]] + InsertBefore(x, sorted[1..])
    else [x] + sorted
  }

  /** The names of `names` whose key is `key`, in order. */
  function WithKey(names: seq<string>, key: string): seq<string> {
    if |names| == 0 then []
    else (if CaseFold(names[0]) == key then [names[0]] else []) + WithKey(names[1..], key)
  }

  /** `get_apps_from_fs`: the visible subdirectory names in case-folded
      order; a missing or unreadable directory gives `LogDirUnavailable`,
      and any other `OSError` propagates as it is. */
  method GetAppsFromFs(logDir: string, listing: Listing) returns (r: Result<seq<string>, AppsError>)
    ensures listing.Unlistable? <==> r.Err?
    ensures listing.Unlistable? && Caught(listing.error) ==> r == Err(LogDirUnavailable(logDir))
    ensures listing.Unlistable? && !Caught(listing.error) ==> r == Err(Raised(listing.error))
    ensures r.Ok? ==> r.value == SortByFold(AppNames(listing.entries))
    ensures r.Ok? ==> FoldSorted(r.value)
    ensures r.Ok? ==> forall n :: n in r.value <==> exists e | e in listing.entries :: IsApp(e) && e.name == n
  {
    if listing.Unlistable? {
      if Caught(listing.error) {
        return Err(LogDirUnavailable(logDir));
      }
      return Err(Raised(listing.error));
    }
    var entries := listing.entries;
    var apps: seq<string> := [];
    for i := 0 to |entries|
      invariant apps == AppNames(entries[..i])
    {
      assert entries[..i + 1][..i] == entries[..i];
      if Hidden(entries[i].name) {
        continue;
      }
      if entries[i].isDir {
        apps := apps + [entries[i].name];
      }
    }
    assert entries[..|entries|] == entries;
    SortByFoldOrders(apps);
    SortByFoldMembers(apps);
    AppNamesMembers(entries);
    apps := SortByFold(apps);
    r := Ok(apps);
  }

  /** A name is listed exactly when some entry with that name is a visible
      directory. */
  lemma {:induction false} AppNamesMembers(entries: seq<DirEntry>)
    ensures forall n :: n in AppNames(entries) <==> exists e | e in entries :: IsApp(e) && e.name == n
  {
    if |entries| > 0 {
      var front := entries[..|entries| - 1];
      AppNamesMembers(front);
      assert entries == front + [entries[|entries| - 1]];
    }
  }

  /** Inserting adds exactly `x`. */
  lemma {:induction false} InsertBeforeAdds(x: string, sorted: seq<string>)
    ensures multiset(InsertBefore(x, sorted)) == multiset(sorted) + multiset{x}
  {
    if |sorted| > 0 && FoldLt(sorted[0], x) {
      InsertBeforeAdds(x, sorted[1..]);
      assert sorted == [sorted[0]] + sorted[1..];
    }
  }

  /** A name whose key is not smaller than any key of a sorted list may
      head it. */
  lemma ConsFoldSorted(h: string, s: seq<string>)
    requires FoldSorted(s)
    requires forall y | y in s :: !FoldLt(y, h)
    ensures FoldSorted([h] + s)
  {
    var r := [h] + s;
    forall i, j | 0 <= i < j < |r|
      ensures !FoldLt(r[j], r[i])
    {
      assert r[j] == s[j - 1];
      if i > 0 {
        assert r[i] == s[i - 1];
      }
    }
  }

  /** Inserting into a sorted list keeps it sorted. */
  lemma {:induction false} InsertBeforeOrdered(x: string, sorted: seq<string>)
    requires FoldSorted(sorted)
    ensures FoldSorted(InsertBefore(x, sorted))
  {
    if |sorted| > 0 {
      if FoldLt(sorted[0], x) {
        var tail := sorted[1..];
        InsertBeforeOrdered(x, tail);
        InsertBeforeAdds(x, tail);
        var ins := InsertBefore(x, tail);
        forall y | y in ins
          ensures !FoldLt(y, sorted[0])
        {
          assert y in multiset(ins);
          if y == x {
            StrLtAsymmetric(CaseFold(sorted[0]), CaseFold(x));
          } else {
            assert y in multiset(tail);
            var j :| 0 <= j < |tail| && tail[j] == y;
            assert sorted[j + 1] == y;
          }
        }
        ConsFoldSorted(sorted[0], ins);
      } else {
        forall y | y in sorted
          ensures !FoldLt(y, x)
        {
          var j :| 0 <= j < |sorted| && sorted[j] == y;
          StrLtTotal(CaseFold(sorted[0]), CaseFold(x));
          if j > 0 && FoldLt(y, x) {
            StrLtTotal(CaseFold(sorted[0]), CaseFold(y));
            if FoldLt(y, sorted[0]) {
              assert false;
            }
            if CaseFold(y) != CaseFold(sorted[0]) {
              StrLtTransitive(CaseFold(sorted[0]), CaseFold(y), CaseFold(x));
            }
          }
        }
        ConsFoldSorted(x, sorted);
      }
    }
  }

  /** The sort yields the same names, each as often, in case-folded
      order. */
  lemma {:induction false} SortByFoldOrders(names: seq<string>)
    ensures FoldSorted(SortByFold(names))
    ensures multiset(SortByFold(names)) == multiset(names)
  {
    if |names| > 0 {
      SortByFoldOrders(names[1..]);
      InsertBeforeOrdered(names[0], SortByFold(names[1..]));
      InsertBeforeAdds(names[0], SortByFold(names[1..]));
      assert names == [names[0]] + names[1..];
    }
  }

  /** The sort neither adds nor drops a name. */
  lemma SortByFoldMembers(names: seq<string>)
    ensures |SortByFold(names)| == |names|
    ensures forall n :: n in SortByFold(names) <==> n in names
  {
    SortByFoldOrders(names);
    assert |multiset(SortByFold(names))| == |multiset(names)|;
    forall n
      ensures n in SortByFold(names) <==> n in names
    {
      assert n in SortByFold(names) <==> n in multiset(SortByFold(names));
    }
  }

  /** The part `name` contributes to `WithKey`. */
  function KeyPart(name: string, key: string): seq<string> {
    if CaseFold(name) == key then [name] else []
  }

  lemma WithKeyCons(h: string, t: seq<string>, key: string)
    ensures WithKey([h] + t, key) == KeyPart(h, key) + WithKey(t, key)
  {
    assert ([h] + t)[0] == h && ([h] + t)[1..] == t;
  }

  /** Inserting `x` places it ahead of every later name with its key. */
  lemma {:induction false} InsertBeforeWithKey(x: string, sorted: seq<string>, key: string)
    ensures WithKey(InsertBefore(x, sorted), key) == KeyPart(x, key) + WithKey(sorted, key)
  {
    if |sorted| == 0 {
      WithKeyCons(x, [], key);
    } else if FoldLt(sorted[0], x) {
      var h := sorted[0];
      var tail := sorted[1..];
      InsertBeforeWithKey(x, tail, key);
      var ins := InsertBefore(x, tail);
      WithKeyCons(h, ins, key);
      WithKeyCons(h, tail, key);
      assert sorted == [h] + tail;
      StrLtIrreflexive(CaseFold(x));
      var hk, xk, rest := KeyPart(h, key), KeyPart(x, key), WithKey(tail, key);
      assert hk == [] || xk == [];
      assert hk + (xk + rest) == xk + (hk + rest);
    } else {
      WithKeyCons(x, sorted, key);
    }
  }

  /** The sort is stable: the names sharing a case-folded key come out in
      the order they went in. */
  lemma {:induction false} SortByFoldStable(names: seq<string>, key: string)
    ensures WithKey(SortByFold(names), key) == WithKey(names, key)
  {
    if |names| > 0 {
      SortByFoldStable(names[1..], key);
      InsertBeforeWithKey(names[0], SortByFold(names[1..]), key);
    }
  }
}
