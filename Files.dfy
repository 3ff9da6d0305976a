/**
 * `removeFiles` (index.js:146-155) over an abstract file system: the set of
 * paths that exist. Each listed path that exists is unlinked, a missing one
 * is skipped, and nothing else is touched. The empty path names no file:
 * `fs.existsSync("")` is false, so listing "" removes nothing.
 */
module Files {

  /** `fs.existsSync(path)`. */
  predicate Exists(files: set<string>, path: string)
  {
    path != "" && path in files
  }

  /** The paths a list names. */
  function Listed(names: seq<string>): set<string>
  {
    set n | n in names && n != ""
  }

  /** The file set after visiting `names` in order, as the loop does. */
  function Removed(files: set<string>, names: seq<string>): set<string>
  {
    if names == [] then files
    else
      var file := names[0];
      Removed(if Exists(files, file) then files - {file} else files, names[1..])
  }

  /** Removing a list removes exactly the listed paths that exist. */
  lemma {:induction false} RemovedIsDifference(files: set<string>, names: seq<string>)
    ensures Removed(files, names) == files - Listed(names)
  {
    if names != [] {
      var file := names[0];
      var next := if Exists(files, file) then files - {file} else files;
      RemovedIsDifference(next, names[1..]);
      assert Listed(names) == (if file == "" then {} else {file}) + Listed(names[1..]) by {
        assert names == [file] + names[1..];
      }
    }
  }

  /** Afterwards no listed path exists and every other path is as before. */
  lemma RemovedFrame(files: set<string>, names: seq<string>, p: string)
    ensures p in names && p != "" ==> p !in Removed(files, names)
    ensures p !in names || p == "" ==> (p in Removed(files, names) <==> p in files)
  {
    RemovedIsDifference(files, names);
  }

  /** Listing paths twice, listing missing paths, or removing again changes
      nothing: `removeFiles(["io.yml", "io.yml", "data.json"])` is harmless. */
  lemma RemovedIdempotent(files: set<string>, names: seq<string>, more: seq<string>)
    requires forall p :: p in more ==> p in names || p !in files
    ensures Removed(Removed(files, names), names) == Removed(files, names)
    ensures Removed(files, names + more) == Removed(files, names)
    ensures Removed(files, names + names) == Removed(files, names)
  {
    RemovedIsDifference(files, names);
    RemovedIsDifference(Removed(files, names), names);
    RemovedIsDifference(files, names + more);
    RemovedIsDifference(files, names + names);
    assert Listed(names + more) == Listed(names) + Listed(more);
    assert Listed(names + names) == Listed(names);
  }

  /** Only which paths are listed matters, not their order or repeats. */
  lemma RemovedOrderFree(files: set<string>, names: seq<string>, others: seq<string>)
    requires forall p :: p in names <==> p in others
    ensures Removed(files, names) == Removed(files, others)
  {
    RemovedIsDifference(files, names);
    RemovedIsDifference(files, others);
    assert Listed(names) == Listed(others);
  }

  /** Removing only the empty path removes nothing. */
  lemma RemovedEmptyPath(files: set<string>)
    ensures Removed(files, [""]) == files
  {
    assert [""][1..] == [];
  }
}
