/** The single-repository indexer (`RepoIndexer`): one walk over the checkout that keeps the
    files passing the depth, skip-list and size filters, turns each into a sparse file record,
    grows the directory tree as it goes, and sorts the records into role buckets whose lengths
    make up the summary. */
module Indexer {
  import opened Wrappers
  import opened Text
  import opened Files
  import opened Patterns
  import opened Build

  /** The settings the indexer reads from its configuration. */
  datatype IndexConfig = IndexConfig(
    skipDirs: set<string>,
    sourceExtensions: set<string>,
    configExtensions: set<string>,
    maxFileSizeKb: nat,
    readmeMaxChars: nat,
    maxDepth: nat)

  /** The values the configuration file is created with. */
  const DefaultConfig := IndexConfig(
    {".git", "node_modules", "__pycache__", ".venv", "venv", "dist", "build", ".idea", ".vscode", "target", ".gradle"},
    {".py", ".java", ".kt", ".js", ".ts", ".jsx", ".tsx", ".go", ".rs", ".rb", ".php", ".cs", ".cpp", ".c", ".h",
     ".swift", ".scala"},
    {".json", ".yaml", ".yml", ".toml", ".ini", ".cfg", ".xml", ".properties", ".env"},
    1024, 2000, 20)

  // ---------------------------------------------------------------------------------------------
  // Walk
  // ---------------------------------------------------------------------------------------------

  /** `_walk_files` keeps a regular file when its relative path is at most `max_depth` parts
      deep, none of its parts (the file name included) is a skipped directory name, and `stat`
      reports a size of at most `max_file_size_kb` KiB. */
  predicate Kept(cfg: IndexConfig, e: FsEntry) {
    e.isFile
    && |e.parts| <= cfg.maxDepth
    && (forall k :: 0 <= k < |e.parts| ==> e.parts[k] !in cfg.skipDirs)
    && e.size.Some? && e.size.value <= cfg.maxFileSizeKb * 1024
  }

  /** The kept entries, in walk order. */
  function Walk(cfg: IndexConfig, entries: seq<FsEntry>): seq<FsEntry> {
    if entries == [] then []
    else
      var last := entries[|entries| - 1];
      Walk(cfg, entries[..|entries| - 1]) + if Kept(cfg, last) then [last] else []
  }

  /** The walk keeps exactly the entries that pass the filters, and only those. */
  lemma {:induction false} WalkKeepsExactly(cfg: IndexConfig, entries: seq<FsEntry>)
    ensures forall e :: e in Walk(cfg, entries) <==> e in entries && Kept(cfg, e)
    ensures |Walk(cfg, entries)| <= |entries|
  {
    if entries != [] {
      var init := entries[..|entries| - 1];
      WalkKeepsExactly(cfg, init);
      assert entries == init + [entries[|entries| - 1]];
    }
  }

  method WalkFiles(cfg: IndexConfig, entries: seq<FsEntry>) returns (files: seq<FsEntry>)
    ensures files == Walk(cfg, entries)
    ensures forall e :: e in files <==> e in entries && Kept(cfg, e)
  {
    files := [];
    var maxSize := cfg.maxFileSizeKb * 1024;
    for i := 0 to |entries|
      invariant files == Walk(cfg, entries[..i])
    {
      assert entries[..i + 1][..i] == entries[..i];
      var item := entries[i];
      if !item.isFile {
        continue;
      }
      if |item.parts| > cfg.maxDepth {
        continue;
      }
      if exists k :: 0 <= k < |item.parts| && item.parts[k] in cfg.skipDirs {
        continue;
      }
      if item.size.None? || item.size.value > maxSize {
        continue;
      }
      files := files + [item];
    }
    assert entries[..|entries|] == entries;
    WalkKeepsExactly(cfg, entries);
  }

  // ---------------------------------------------------------------------------------------------
  // File records
  // ---------------------------------------------------------------------------------------------

  /** A file record; the optional fields are the keys the record only has sometimes (`hash`
      and `lines` for source and configuration files, the rest for source files where
      something was found). */
  datatype FileRecord = FileRecord(
    path: string,
    name: string,
    extension: string,
    size: nat,
    hash: Option<string>,
    lines: Option<nat>,
    role: Option<Role>,
    package: Option<string>,
    primaryClass: Option<string>,
    endpoints: seq<Endpoint>)

  /** `Path.name` of a relative path. */
  function NameOf(parts: seq<string>): string {
    if parts == [] then "" else parts[|parts| - 1]
  }

  /** `str(rel_path)` on a POSIX system. */
  function PathOf(parts: seq<string>): string {
    if parts == [] then "." else Join(parts, "/")
  }

  /** `Path.suffix.lower()`. */
  function ExtensionOf(parts: seq<string>): string {
    Lower(Suffix(NameOf(parts)))
  }

  /** `_analyze_file`; `md5` stands for `_md5_hash`. Files that are neither source nor
      configuration get only their path, name, extension and size; the others also need
      their text, and source files are classified and searched for a package, a primary type
      and routes. No record when `stat` or the read fails. */
  function AnalyzeFile(cfg: IndexConfig, md5: string -> string, e: FsEntry): (r: Option<FileRecord>)
    ensures r.Some? <==>
      e.size.Some? && (ExtensionOf(e.parts) in cfg.sourceExtensions || ExtensionOf(e.parts) in cfg.configExtensions ==> e.content.Some?)
    ensures r.Some? ==>
      var rec := r.value;
      rec.path == PathOf(e.parts) && rec.name == NameOf(e.parts) && rec.extension == ExtensionOf(e.parts)
      && rec.size == e.size.value
      && (rec.lines.Some? <==> rec.extension in cfg.sourceExtensions || rec.extension in cfg.configExtensions)
      && (rec.lines.Some? ==> rec.lines.value == CountChar(e.content.value, '\n') + 1
                              && rec.hash == Some(md5(e.content.value)))
      && (rec.extension !in cfg.sourceExtensions ==>
            rec.role.None? && rec.package.None? && rec.primaryClass.None? && rec.endpoints == [])
      && RoutesNamePath(rec)
  {
    var path := PathOf(e.parts);
    var name := NameOf(e.parts);
    var ext := ExtensionOf(e.parts);
    var isSource := ext in cfg.sourceExtensions;
    var isConfig := ext in cfg.configExtensions;
    if !isSource && !isConfig then
      match e.size
      case None => None
      case Some(size) => Some(FileRecord(path, name, ext, size, None, None, None, None, None, []))
    else if e.content.None? || e.size.None? then None
    else
      var content := e.content.value;
      var rec := FileRecord(path, name, ext, e.size.value, Some(md5(content)), Some(CountChar(content, '\n') + 1),
                            None, None, None, []);
      if isSource then
        EndpointsNameTheirFile(content, path, ext);
        Some(rec.(role := Classify(path, Stem(name), content),
                  package := Package(content, ext),
                  primaryClass := PrimaryClass(content, ext),
                  endpoints := Endpoints(content, path, ext)))
      else Some(rec)
  }

  /** Every route of the record names the record's own path. */
  predicate RoutesNamePath(rec: FileRecord) {
    forall e :: e in rec.endpoints ==> e.file == rec.path
  }

  /** `_slim_file_info`: path and name, plus whichever of class, package, type and line count
      the record has. */
  datatype SlimRecord = SlimRecord(
    path: string, name: string, primaryClass: Option<string>, package: Option<string>, role: Option<Role>, lines: Option<nat>)

  function Slim(rec: FileRecord): (r: SlimRecord)
    ensures r.path == rec.path && r.name == rec.name && r.primaryClass == rec.primaryClass
      && r.package == rec.package && r.role == rec.role && r.lines == rec.lines
  {
    SlimRecord(rec.path, rec.name, rec.primaryClass, rec.package, rec.role, rec.lines)
  }

  function SlimAll(recs: seq<FileRecord>): (r: seq<SlimRecord>)
    ensures |r| == |recs| && forall k :: 0 <= k < |r| ==> r[k] == Slim(recs[k])
  {
    seq(|recs|, k requires 0 <= k < |recs| => Slim(recs[k]))
  }

  // ---------------------------------------------------------------------------------------------
  // Directory tree
  // ---------------------------------------------------------------------------------------------

  /** The `structure` value: sub-directories by name and the names of the files directly in
      the directory, in walk order. */
  datatype Tree = Tree(dirs: map<string, Tree>, files: seq<string>)

  const EmptyTree := Tree(map[], [])

  /** Appends the file name `parts[-1]` to the node of its parent directories, creating
      missing nodes on the way. */
  function Insert(t: Tree, parts: seq<string>): Tree
    decreases |parts|
  {
    if parts == [] then t
    else if |parts| == 1 then t.(files := t.files + [parts[0]])
    else
      var child := if parts[0] in t.dirs then t.dirs[parts[0]] else EmptyTree;
      t.(dirs := t.dirs[parts[0] := Insert(child, parts[1..])])
  }

  /** The node at directory path `dirs`, if the tree has one. */
  function NodeAt(t: Tree, dirs: seq<string>): Option<Tree>
    decreases |dirs|
  {
    if dirs == [] then Some(t)
    else if dirs[0] in t.dirs then NodeAt(t.dirs[dirs[0]], dirs[1..])
    else None
  }

  /** The file names listed for directory `dirs`, none when there is no such node. */
  function FilesAt(t: Tree, dirs: seq<string>): seq<string> {
    match NodeAt(t, dirs)
    case Some(n) => n.files
    case None => []
  }

  /** Inserting a file appends its name to its parent directory's list and creates every
      directory on its path. */
  lemma {:induction false} InsertAppends(t: Tree, parts: seq<string>)
    requires parts != []
    ensures FilesAt(Insert(t, parts), parts[..|parts| - 1]) == FilesAt(t, parts[..|parts| - 1]) + [parts[|parts| - 1]]
    ensures forall n :: 0 <= n < |parts| ==> NodeAt(Insert(t, parts), parts[..n]).Some?
    decreases |parts|
  {
    if |parts| > 1 {
      var child := if parts[0] in t.dirs then t.dirs[parts[0]] else EmptyTree;
      InsertAppends(child, parts[1..]);
      assert parts[1..][..|parts| - 2] == parts[..|parts| - 1][1..];
      assert NodeAt(child, parts[1..][..|parts| - 2]) == NodeAt(t, parts[..|parts| - 1]) || parts[0] !in t.dirs;
      if parts[0] !in t.dirs {
        EmptyHasOnlyRoot(parts[..|parts| - 1][1..]);
      }
      forall n | 0 <= n < |parts| ensures NodeAt(Insert(t, parts), parts[..n]).Some? {
        if n > 0 {
          assert parts[..n][1..] == parts[1..][..n - 1];
        }
      }
    }
  }

  /** The empty tree has no node below its root. */
  lemma EmptyHasOnlyRoot(dirs: seq<string>)
    ensures FilesAt(EmptyTree, dirs) == []
  {
  }

  /** Inserting a file leaves the file list of every other directory as it was. */
  lemma {:induction false} InsertLeavesOthers(t: Tree, parts: seq<string>, dirs: seq<string>)
    requires parts != [] && dirs != parts[..|parts| - 1]
    ensures FilesAt(Insert(t, parts), dirs) == FilesAt(t, dirs)
    decreases |parts|
  {
    if |parts| > 1 && dirs != [] && dirs[0] == parts[0] {
      var child := if parts[0] in t.dirs then t.dirs[parts[0]] else EmptyTree;
      assert parts[1..][..|parts| - 2] == parts[..|parts| - 1][1..];
      assert dirs[1..] != parts[1..][..|parts| - 2];
      InsertLeavesOthers(child, parts[1..], dirs[1..]);
      if parts[0] !in t.dirs {
        EmptyHasOnlyRoot(dirs[1..]);
      }
    }
  }

  // ---------------------------------------------------------------------------------------------
  // README
  // ---------------------------------------------------------------------------------------------

  const ReadmeNames := ["README.md", "README.rst", "README.txt", "README", "readme.md"]

  /** The text kept from a README: at most `max` characters, with a marker when cut. */
  function Truncate(content: string, max: nat): (r: string)
    ensures |content| <= max ==> r == content
    ensures |content| > max ==> r == content[..max] + "\n\n... (truncated)"
  {
    if |content| > max then content[..max] + "\n\n... (truncated)" else content
  }

  /** The first of `names` from position `k` on that exists at the root and can be read. */
  function FirstReadable(entries: seq<FsEntry>, names: seq<string>, k: nat): Option<string>
    decreases |names| - k
  {
    if k >= |names| then None
    else match ReadRoot(entries, names[k])
      case Some(text) => Some(text)
      case None => FirstReadable(entries, names, k + 1)
  }

  /** `_read_readme`. */
  function ReadReadme(cfg: IndexConfig, entries: seq<FsEntry>): Option<string> {
    match FirstReadable(entries, ReadmeNames, 0)
    case Some(text) => Some(Truncate(text, cfg.readmeMaxChars))
    case None => None
  }

  /** Nothing is read exactly when no candidate from `k` on can be read. */
  lemma {:induction false} NoneReadable(entries: seq<FsEntry>, names: seq<string>, k: nat)
    requires k <= |names|
    ensures FirstReadable(entries, names, k).None? <==>
      forall j :: k <= j < |names| ==> ReadRoot(entries, names[j]).None?
    decreases |names| - k
  {
    if k < |names| {
      NoneReadable(entries, names, k + 1);
    }
  }

  /** What is read comes from the candidate at `j`, and none before it can be read. */
  lemma {:induction false} FirstReadableAt(entries: seq<FsEntry>, names: seq<string>, k: nat) returns (j: nat)
    requires FirstReadable(entries, names, k).Some?
    ensures k <= j < |names| && ReadRoot(entries, names[j]) == FirstReadable(entries, names, k)
    ensures forall i :: k <= i < j ==> ReadRoot(entries, names[i]).None?
    decreases |names| - k
  {
    if ReadRoot(entries, names[k]).Some? {
      j := k;
    } else {
      j := FirstReadableAt(entries, names, k + 1);
    }
  }

  /** The README is the first readable candidate in the fixed order; there is none only when
      no candidate can be read. */
  lemma ReadmeIsFirstReadable(entries: seq<FsEntry>)
    ensures FirstReadable(entries, ReadmeNames, 0).None? <==>
      forall j :: 0 <= j < |ReadmeNames| ==> ReadRoot(entries, ReadmeNames[j]).None?
    ensures FirstReadable(entries, ReadmeNames, 0).Some? ==>
      exists j :: 0 <= j < |ReadmeNames| && ReadRoot(entries, ReadmeNames[j]) == FirstReadable(entries, ReadmeNames, 0)
                  && forall i :: 0 <= i < j ==> ReadRoot(entries, ReadmeNames[i]).None?
  {
    NoneReadable(entries, ReadmeNames, 0);
    if FirstReadable(entries, ReadmeNames, 0).Some? {
      var j := FirstReadableAt(entries, ReadmeNames, 0);
    }
  }

  // ---------------------------------------------------------------------------------------------
  // Buckets and the index
  // ---------------------------------------------------------------------------------------------

  /** What the walk loop accumulates: every record, the source records, their routes, the
      source records by role, the configuration records, and the tree. */
  datatype Buckets = Buckets(
    all: seq<FileRecord>,
    sources: seq<FileRecord>,
    apis: seq<Endpoint>,
    controllers: seq<FileRecord>,
    services: seq<FileRecord>,
    repositories: seq<FileRecord>,
    models: seq<FileRecord>,
    tests: seq<FileRecord>,
    configs: seq<FileRecord>,
    tree: Tree)

  const NoBuckets := Buckets([], [], [], [], [], [], [], [], [], EmptyTree)

  /** One turn of the walk loop for a file that produced a record. */
  function AddRecord(cfg: IndexConfig, b: Buckets, parts: seq<string>, rec: FileRecord): Buckets {
    var b1 := b.(all := b.all + [rec], tree := Insert(b.tree, parts));
    if rec.extension in cfg.sourceExtensions then
      var b2 := b1.(sources := b1.sources + [rec], apis := b1.apis + rec.endpoints);
      match rec.role
      case Some(Controller) => b2.(controllers := b2.controllers + [rec])
      case Some(Service) => b2.(services := b2.services + [rec])
      case Some(Repository) => b2.(repositories := b2.repositories + [rec])
      case Some(Model) => b2.(models := b2.models + [rec])
      case Some(Test) => b2.(tests := b2.tests + [rec])
      case None => b2
    else if rec.extension in cfg.configExtensions then
      b1.(configs := b1.configs + [rec])
    else b1
  }

  /** A walked file that produced a record, with its relative path parts. */
  datatype Analyzed = Analyzed(parts: seq<string>, rec: FileRecord)

  /** The records the walked files produce, in walk order. */
  function Records(cfg: IndexConfig, md5: string -> string, files: seq<FsEntry>): (r: seq<Analyzed>)
    ensures |r| <= |files|
    ensures forall a :: a in r ==> RoutesNamePath(a.rec)
  {
    if files == [] then []
    else
      var last := files[|files| - 1];
      Records(cfg, md5, files[..|files| - 1]) +
      match AnalyzeFile(cfg, md5, last)
      case Some(rec) => [Analyzed(last.parts, rec)]
      case None => []
  }

  /** The buckets after the loop has added `items`. */
  function Fold(cfg: IndexConfig, items: seq<Analyzed>): Buckets {
    if items == [] then NoBuckets
    else
      var last := items[|items| - 1];
      AddRecord(cfg, Fold(cfg, items[..|items| - 1]), last.parts, last.rec)
  }

  /** The buckets after the loop has seen `files`. */
  function CollectBuckets(cfg: IndexConfig, md5: string -> string, files: seq<FsEntry>): Buckets {
    Fold(cfg, Records(cfg, md5, files))
  }

  /** The `summary` counts. */
  datatype Summary = Summary(
    totalFiles: nat, sourceFiles: nat, controllers: nat, services: nat, repositories: nat,
    models: nat, tests: nat, configs: nat, apiEndpoints: nat)

  /** The repository's cache record; `indexedAt` is the timestamp the caller supplies. */
  datatype RepositoryIndex = RepositoryIndex(
    name: string,
    path: string,
    indexedAt: string,
    summary: Summary,
    structure: Tree,
    apis: seq<Endpoint>,
    services: seq<SlimRecord>,
    models: seq<SlimRecord>,
    controllers: seq<SlimRecord>,
    configs: seq<SlimRecord>,
    build: BuildInfo,
    readme: Option<string>)

  /** The record built from the buckets. */
  function Assemble(name: string, path: string, now: string, b: Buckets, build: BuildInfo, readme: Option<string>): RepositoryIndex {
    RepositoryIndex(
      name, path, now,
      Summary(|b.all|, |b.sources|, |b.controllers|, |b.services|, |b.repositories|, |b.models|,
              |b.tests|, |b.configs|, |b.apis|),
      b.tree, b.apis, SlimAll(b.services), SlimAll(b.models), SlimAll(b.controllers), SlimAll(b.configs),
      build, readme)
  }

  /** `RepoIndexer.index` as a function of the checkout; `None` is the exception that
      escapes build detection when `package.json` is JSON of the wrong shape. */
  function IndexOf(cfg: IndexConfig, md5: string -> string, decode: string -> PackageDecode,
                   name: string, path: string, now: string, entries: seq<FsEntry>): (r: Option<RepositoryIndex>)
    ensures r.None? <==> NpmFails(entries, decode)
    ensures r.Some? ==> r.value.name == name && r.value.build.kind == BuildKind(entries)
  {
    match DetectBuild(entries, decode)
    case None => None
    case Some(build) =>
      Some(Assemble(name, path, now, CollectBuckets(cfg, md5, Walk(cfg, entries)), build, ReadReadme(cfg, entries)))
  }

  /** `RepoIndexer.index`: one loop over the walked files appending to the buckets and growing
      the tree. */
  method Index(cfg: IndexConfig, md5: string -> string, decode: string -> PackageDecode,
               name: string, path: string, now: string, entries: seq<FsEntry>) returns (idx: Option<RepositoryIndex>)
    ensures idx == IndexOf(cfg, md5, decode, name, path, now, entries)
  {
    var files := WalkFiles(cfg, entries);
    var b := NoBuckets;
    for i := 0 to |files|
      invariant b == Fold(cfg, Records(cfg, md5, files[..i]))
    {
      var info := AnalyzeFile(cfg, md5, files[i]);
      CollectStep(cfg, md5, files, i);
      if info.Some? {
        b := AddFile(cfg, b, files[i].parts, info.value);
      }
    }
    assert files[..|files|] == files;
    var readme := ReadReadme(cfg, entries);
    match DetectBuild(entries, decode) {
      case None => idx := None;
      case Some(build) => idx := Some(Assemble(name, path, now, b, build, readme));
    }
  }

  /** The buckets after one more walked file. */
  lemma CollectStep(cfg: IndexConfig, md5: string -> string, files: seq<FsEntry>, i: nat)
    requires i < |files|
    ensures Fold(cfg, Records(cfg, md5, files[..i + 1])) ==
      match AnalyzeFile(cfg, md5, files[i])
      case Some(rec) => AddRecord(cfg, Fold(cfg, Records(cfg, md5, files[..i])), files[i].parts, rec)
      case None => Fold(cfg, Records(cfg, md5, files[..i]))
  {
    assert files[..i + 1][..i] == files[..i];
    var items := Records(cfg, md5, files[..i]);
    match AnalyzeFile(cfg, md5, files[i]) {
      case Some(rec) =>
        assert Records(cfg, md5, files[..i + 1]) == items + [Analyzed(files[i].parts, rec)];
        assert (items + [Analyzed(files[i].parts, rec)])[..|items|] == items;
      case None =>
        assert Records(cfg, md5, files[..i + 1]) == items;
    }
  }

  /** The loop body for a file that produced a record: append it to the record list, to the
      source records, its role's bucket and the routes or to the configuration records, and
      add its path to the tree. */
  method AddFile(cfg: IndexConfig, b0: Buckets, parts: seq<string>, rec: FileRecord) returns (b: Buckets)
    ensures b == AddRecord(cfg, b0, parts, rec)
  {
    b := b0.(all := b0.all + [rec], tree := Insert(b0.tree, parts));
    if rec.extension in cfg.sourceExtensions {
      b := b.(sources := b.sources + [rec]);
      match rec.role {
        case Some(Controller) => b := b.(controllers := b.controllers + [rec]);
        case Some(Service) => b := b.(services := b.services + [rec]);
        case Some(Repository) => b := b.(repositories := b.repositories + [rec]);
        case Some(Model) => b := b.(models := b.models + [rec]);
        case Some(Test) => b := b.(tests := b.tests + [rec]);
        case None =>
      }
      b := b.(apis := b.apis + rec.endpoints);
    } else if rec.extension in cfg.configExtensions {
      b := b.(configs := b.configs + [rec]);
    }
  }

  // ---------------------------------------------------------------------------------------------
  // What the buckets hold
  // ---------------------------------------------------------------------------------------------

  /** The records with the given extension class, in order. */
  function WithExtensionIn(recs: seq<FileRecord>, exts: set<string>): seq<FileRecord> {
    if recs == [] then []
    else WithExtensionIn(recs[..|recs| - 1], exts)
         + if recs[|recs| - 1].extension in exts then [recs[|recs| - 1]] else []
  }

  /** The records with the given role, in order. */
  function WithRole(recs: seq<FileRecord>, role: Role): seq<FileRecord> {
    if recs == [] then []
    else WithRole(recs[..|recs| - 1], role) + if recs[|recs| - 1].role == Some(role) then [recs[|recs| - 1]] else []
  }

  /** The routes of the records, concatenated in order. */
  function AllEndpoints(recs: seq<FileRecord>): seq<Endpoint> {
    if recs == [] then [] else AllEndpoints(recs[..|recs| - 1]) + recs[|recs| - 1].endpoints
  }

  /** The buckets are views of the record list: the source records are the records with a
      source extension; each role bucket is the source records with that role; the
      configuration records are the others with a configuration extension; the routes are
      the source records' routes. */
  ghost predicate BucketsAreViews(cfg: IndexConfig, b: Buckets) {
    b.sources == WithExtensionIn(b.all, cfg.sourceExtensions)
    && b.controllers == WithRole(b.sources, Controller)
    && b.services == WithRole(b.sources, Service)
    && b.repositories == WithRole(b.sources, Repository)
    && b.models == WithRole(b.sources, Model)
    && b.tests == WithRole(b.sources, Test)
    && b.configs == WithExtensionIn(b.all, cfg.configExtensions - cfg.sourceExtensions)
    && b.apis == AllEndpoints(b.sources)
  }

  /** Appending one record to each view gives the view of the longer list. */
  lemma ViewsSnoc(recs: seq<FileRecord>, rec: FileRecord, exts: set<string>, role: Role)
    ensures WithExtensionIn(recs + [rec], exts) == WithExtensionIn(recs, exts) + if rec.extension in exts then [rec] else []
    ensures WithRole(recs + [rec], role) == WithRole(recs, role) + if rec.role == Some(role) then [rec] else []
    ensures AllEndpoints(recs + [rec]) == AllEndpoints(recs) + rec.endpoints
  {
    assert (recs + [rec])[..|recs|] == recs;
  }

  /** What one turn of the loop adds to each bucket. */
  lemma AddRecordFields(cfg: IndexConfig, b: Buckets, parts: seq<string>, rec: FileRecord)
    ensures var r := AddRecord(cfg, b, parts, rec);
      var src := rec.extension in cfg.sourceExtensions;
      r.all == b.all + [rec] && r.tree == Insert(b.tree, parts)
      && r.sources == b.sources + (if src then [rec] else [])
      && r.apis == b.apis + (if src then rec.endpoints else [])
      && r.controllers == b.controllers + (if src && rec.role == Some(Controller) then [rec] else [])
      && r.services == b.services + (if src && rec.role == Some(Service) then [rec] else [])
      && r.repositories == b.repositories + (if src && rec.role == Some(Repository) then [rec] else [])
      && r.models == b.models + (if src && rec.role == Some(Model) then [rec] else [])
      && r.tests == b.tests + (if src && rec.role == Some(Test) then [rec] else [])
      && r.configs == b.configs + (if !src && rec.extension in cfg.configExtensions then [rec] else [])
  {
    if rec.extension in cfg.sourceExtensions {
      match rec.role {
        case Some(Controller) =>
        case Some(Service) =>
        case Some(Repository) =>
        case Some(Model) =>
        case Some(Test) =>
        case None =>
      }
    } else {
      assert AddRecord(cfg, b, parts, rec).sources == b.sources + [];
      assert AddRecord(cfg, b, parts, rec).apis == b.apis + [];
    }
  }

  /** One turn of the loop keeps the buckets views of the record list. */
  lemma AddRecordKeepsViews(cfg: IndexConfig, b: Buckets, parts: seq<string>, rec: FileRecord)
    requires BucketsAreViews(cfg, b)
    ensures BucketsAreViews(cfg, AddRecord(cfg, b, parts, rec))
  {
    var src := cfg.sourceExtensions;
    AddRecordFields(cfg, b, parts, rec);
    ViewsSnoc(b.all, rec, src, Test);
    ViewsSnoc(b.all, rec, cfg.configExtensions - src, Test);
    if rec.extension in src {
      ViewsSnoc(b.sources, rec, src, Test);
      ViewsSnoc(b.sources, rec, src, Controller);
      ViewsSnoc(b.sources, rec, src, Service);
      ViewsSnoc(b.sources, rec, src, Repository);
      ViewsSnoc(b.sources, rec, src, Model);
    }
  }

  /** The loop keeps the buckets views of the record list. */
  lemma {:induction false} FoldIsViews(cfg: IndexConfig, items: seq<Analyzed>)
    ensures BucketsAreViews(cfg, Fold(cfg, items))
  {
    if items != [] {
      var last := items[|items| - 1];
      var b := Fold(cfg, items[..|items| - 1]);
      FoldIsViews(cfg, items[..|items| - 1]);
      AddRecordKeepsViews(cfg, b, last.parts, last.rec);
      assert Fold(cfg, items) == AddRecord(cfg, b, last.parts, last.rec);
    }
  }

  /** Every record is kept in the record list. */
  lemma {:induction false} FoldKeepsAll(cfg: IndexConfig, items: seq<Analyzed>)
    ensures |Fold(cfg, items).all| == |items|
  {
    if items != [] {
      FoldKeepsAll(cfg, items[..|items| - 1]);
    }
  }

  /** No record is in two role buckets, so the role buckets together are no longer than the
      source records. */
  lemma {:induction false} RolesPartitionSources(recs: seq<FileRecord>)
    ensures |WithRole(recs, Test)| + |WithRole(recs, Controller)| + |WithRole(recs, Service)|
            + |WithRole(recs, Repository)| + |WithRole(recs, Model)| <= |recs|
  {
    if recs != [] {
      RolesPartitionSources(recs[..|recs| - 1]);
    }
  }

  /** A record has either a source extension or, at most, a configuration extension. */
  lemma {:induction false} ExtensionsPartitionRecords(recs: seq<FileRecord>, source: set<string>, config: set<string>)
    ensures |WithExtensionIn(recs, source)| + |WithExtensionIn(recs, config - source)| <= |recs|
  {
    if recs != [] {
      ExtensionsPartitionRecords(recs[..|recs| - 1], source, config);
    }
  }

  /** Every summary count is the length of the list built during the walk: the listed
      buckets are exactly as long as their counts, the role buckets never exceed the source
      files, source and configuration files never exceed all files, and there are never
      more records than entries in the checkout. */
  lemma SummaryMatchesLists(cfg: IndexConfig, md5: string -> string, decode: string -> PackageDecode,
                            name: string, path: string, now: string, entries: seq<FsEntry>)
    ensures IndexOf(cfg, md5, decode, name, path, now, entries).Some? ==>
      var idx := IndexOf(cfg, md5, decode, name, path, now, entries).value;
      var s := idx.summary;
      s.controllers == |idx.controllers| && s.services == |idx.services| && s.models == |idx.models|
      && s.configs == |idx.configs| && s.apiEndpoints == |idx.apis|
      && s.controllers + s.services + s.repositories + s.models + s.tests <= s.sourceFiles
      && s.sourceFiles + s.configs <= s.totalFiles <= |entries|
  {
    var files := Walk(cfg, entries);
    var b := CollectBuckets(cfg, md5, files);
    FoldIsViews(cfg, Records(cfg, md5, files));
    FoldKeepsAll(cfg, Records(cfg, md5, files));
    RolesPartitionSources(b.sources);
    ExtensionsPartitionRecords(b.all, cfg.sourceExtensions, cfg.configExtensions);
    WalkKeepsExactly(cfg, entries);
  }

  /** Every record of a role view has that role. */
  lemma {:induction false} WithRoleHasRole(recs: seq<FileRecord>, role: Role)
    ensures forall r :: r in WithRole(recs, role) ==> r.role == Some(role)
  {
    if recs != [] {
      WithRoleHasRole(recs[..|recs| - 1], role);
    }
  }

  /** The `services`, `models`, `controllers` and `configs` lists of the record are the slim
      forms of the role views of the source records and of the configuration records, so every
      listed service, model or controller carries that role. */
  lemma IndexSlimLists(cfg: IndexConfig, md5: string -> string, decode: string -> PackageDecode,
                       name: string, path: string, now: string, entries: seq<FsEntry>)
    ensures IndexOf(cfg, md5, decode, name, path, now, entries).Some? ==>
      var idx := IndexOf(cfg, md5, decode, name, path, now, entries).value;
      var recs := CollectBuckets(cfg, md5, Walk(cfg, entries)).all;
      var src := WithExtensionIn(recs, cfg.sourceExtensions);
      idx.services == SlimAll(WithRole(src, Service)) && idx.models == SlimAll(WithRole(src, Model))
      && idx.controllers == SlimAll(WithRole(src, Controller))
      && idx.configs == SlimAll(WithExtensionIn(recs, cfg.configExtensions - cfg.sourceExtensions))
      && (forall s :: s in idx.services ==> s.role == Some(Service))
      && (forall s :: s in idx.models ==> s.role == Some(Model))
      && (forall s :: s in idx.controllers ==> s.role == Some(Controller))
  {
    var files := Walk(cfg, entries);
    var b := CollectBuckets(cfg, md5, files);
    if DetectBuild(entries, decode).Some? {
      var idx := Assemble(name, path, now, b, DetectBuild(entries, decode).value, ReadReadme(cfg, entries));
      assert IndexOf(cfg, md5, decode, name, path, now, entries) == Some(idx);
      FoldIsViews(cfg, Records(cfg, md5, files));
      WithRoleHasRole(b.sources, Service);
      WithRoleHasRole(b.sources, Model);
      WithRoleHasRole(b.sources, Controller);
    }
  }

  /** Every route in `b` names the path of one of its source records. */
  ghost predicate RoutesFromSources(cfg: IndexConfig, b: Buckets) {
    forall e :: e in b.apis ==> exists r :: r in b.sources && e.file == r.path && r.extension in cfg.sourceExtensions
  }

  /** One turn of the loop keeps every route tied to a source record. */
  lemma AddRecordRoutes(cfg: IndexConfig, b: Buckets, parts: seq<string>, rec: FileRecord)
    requires RoutesFromSources(cfg, b) && RoutesNamePath(rec)
    ensures RoutesFromSources(cfg, AddRecord(cfg, b, parts, rec))
  {
    var b' := AddRecord(cfg, b, parts, rec);
    AddRecordFields(cfg, b, parts, rec);
    forall e | e in b'.apis
      ensures exists r :: r in b'.sources && e.file == r.path && r.extension in cfg.sourceExtensions
    {
      if e in b.apis {
        var r :| r in b.sources && e.file == r.path && r.extension in cfg.sourceExtensions;
        assert r in b'.sources;
      } else {
        assert e in rec.endpoints;
        assert rec in b'.sources;
      }
    }
  }

  /** Only source files feed the routes: every route names the path of a source record. */
  lemma {:induction false} RoutesComeFromSources(cfg: IndexConfig, items: seq<Analyzed>)
    requires forall a :: a in items ==> RoutesNamePath(a.rec)
    ensures RoutesFromSources(cfg, Fold(cfg, items))
  {
    if items != [] {
      var init := items[..|items| - 1];
      var last := items[|items| - 1];
      assert forall a :: a in init ==> a in items;
      RoutesComeFromSources(cfg, init);
      AddRecordRoutes(cfg, Fold(cfg, init), last.parts, last.rec);
    }
  }
}
