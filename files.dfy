/** The repository checkout as the indexer sees it: the items `Path.rglob("*")` yields, in
    that order, each with what `stat()` and `read_text()` report for it. */
module Files {
  import opened Wrappers

  /** One item under the repository root: its path relative to the root as `Path.parts`,
      whether it is a regular file, its size (`None` when `stat()` fails) and its text (`None`
      when reading fails, as it does for a directory). */
  datatype FsEntry = FsEntry(parts: seq<string>, isFile: bool, size: Option<nat>, content: Option<string>)

  /** The item at `repo_path / name`, a name directly under the root. */
  function FindRoot(entries: seq<FsEntry>, name: string): (r: Option<FsEntry>)
    ensures r.None? <==> forall k :: 0 <= k < |entries| ==> entries[k].parts != [name]
    ensures r.Some? ==> r.value in entries && r.value.parts == [name]
  {
    if entries == [] then None
    else if entries[0].parts == [name] then Some(entries[0])
    else
      var rest := FindRoot(entries[1..], name);
      assert forall k :: 1 <= k < |entries| ==> entries[k] == entries[1..][k - 1];
      rest
  }

  /** `(repo_path / name).exists()`. */
  predicate Exists(entries: seq<FsEntry>, name: string) {
    FindRoot(entries, name).Some?
  }

  /** `(repo_path / name).read_text()`, `None` when the item is missing or unreadable. */
  function ReadRoot(entries: seq<FsEntry>, name: string): (r: Option<string>)
    ensures r.Some? ==> Exists(entries, name)
  {
    match FindRoot(entries, name)
    case Some(e) => e.content
    case None => None
  }
}
