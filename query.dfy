/** The query interface AI assistants use over the cached repository records
    (`doug/ai_query.py`): summaries and sections of one repository, file lookup, the endpoint
    listing, and a case-insensitive search across every repository whose categories are capped. */
module Query {
  import opened Wrappers
  import opened Text
  import opened Order
  import opened Patterns
  import opened Build
  import opened Files
  import opened Indexer
  import opened Aggregates

  /** `DEFAULT_MAX_RESULTS`. */
  const DefaultMaxResults := 50

  /** The record of `name` in the cache directory: `None` when there is no `name.json` or when it
      cannot be decoded. */
  function Stored(store: map<string, Option<RepositoryIndex>>, name: string): Option<RepositoryIndex> {
    if name in store then store[name] else None
  }

  /** `list_repos`: the names of the cache files, sorted. */
  function ListRepos(store: map<string, Option<RepositoryIndex>>): (r: seq<string>)
    ensures forall n :: n in r <==> n in store
    ensures StrictlySorted(r)
  {
    SortedSet(store.Keys)
  }

  // ---------------------------------------------------------------------------------------------
  // Excerpts
  // ---------------------------------------------------------------------------------------------

  /** Where the query first occurs in the text, ignoring case, or -1. */
  function MatchIndex(text: string, query: string): int {
    Find(Lower(text), Lower(query))
  }

  /** `_extract_context`: without a match the first `maxChars` characters; otherwise the text
      from `maxChars // 2` before the match to `maxChars // 2` after it, each side clipped to the
      text and marked with "..." where something was cut. */
  function ExtractContext(text: string, query: string, maxChars: nat): string {
    var idx := MatchIndex(text, query);
    if idx == -1 then Take(text, maxChars)
    else Marked(text, ContextStart(idx, maxChars), ContextEnd(|text|, idx, |query|, maxChars))
  }

  /** `max(0, idx - max_chars // 2)`. */
  function ContextStart(idx: int, maxChars: nat): int {
    if idx - maxChars / 2 < 0 then 0 else idx - maxChars / 2
  }

  /** `min(len(text), idx + len(query) + max_chars // 2)`. */
  function ContextEnd(len: nat, idx: int, queryLen: nat, maxChars: nat): int {
    if len < idx + queryLen + maxChars / 2 then len else idx + queryLen + maxChars / 2
  }

  /** `text[start:end]` with "..." before it when it does not start the text and after it when
      it does not end the text. */
  function Marked(text: string, start: int, end: int): string {
    (if start > 0 then "..." else "") + PySlice(text, start, end) + (if end < |text| then "..." else "")
  }

  /** Without a match the excerpt is a prefix of the text of at most `maxChars` characters. */
  lemma ExtractContextWithoutMatch(text: string, query: string, maxChars: nat)
    requires MatchIndex(text, query) == -1
    ensures |ExtractContext(text, query, maxChars)| <= maxChars
    ensures StartsWith(text, ExtractContext(text, query, maxChars))
  {
  }

  /** Where the match sits inside the excerpt: after the leading mark, if any, and the context
      before it. */
  function MatchOffset(idx: int, maxChars: nat): int {
    (if ContextStart(idx, maxChars) > 0 then 3 else 0) + idx - ContextStart(idx, maxChars)
  }

  /** With a match the excerpt shows it: the matched characters appear in it at `MatchOffset`,
      with at most `maxChars // 2` characters of context on each side besides the two marks. */
  lemma {:induction false} ExtractContextShowsMatch(text: string, query: string, maxChars: nat)
    requires MatchIndex(text, query) != -1
    ensures MatchIndex(text, query) + |query| <= |text|
    ensures |ExtractContext(text, query, maxChars)| <= |query| + 2 * (maxChars / 2) + 6
    ensures OccursAt(ExtractContext(text, query, maxChars), text[MatchIndex(text, query)..MatchIndex(text, query) + |query|],
                     MatchOffset(MatchIndex(text, query), maxChars))
  {
    var idx := MatchIndex(text, query);
    MatchIndexInRange(text, query);
    var e := ContextEnd(|text|, idx, |query|, maxChars);
    assert ExtractContext(text, query, maxChars) == Marked(text, ContextStart(idx, maxChars), e);
    MarkedHoldsMatch(text, idx, |query|, maxChars, e);
    ContextWidth(|text|, idx, |query|, maxChars);
  }

  /** The window reaches at most `maxChars // 2` characters to each side of the match. */
  lemma ContextWidth(len: nat, idx: nat, queryLen: nat, maxChars: nat)
    ensures ContextEnd(len, idx, queryLen, maxChars) - ContextStart(idx, maxChars) <= queryLen + 2 * (maxChars / 2)
  {
  }

  /** A match lies inside the text. */
  lemma MatchIndexInRange(text: string, query: string)
    requires MatchIndex(text, query) != -1
    ensures 0 <= MatchIndex(text, query) && MatchIndex(text, query) + |query| <= |text|
  {
    assert OccursAt(Lower(text), Lower(query), MatchIndex(text, query));
  }

  /** A marked window of the text around a match holds the match after the leading mark and
      the context before it. */
  lemma MarkedHoldsMatch(text: string, idx: nat, len: nat, maxChars: nat, end: nat)
    requires idx + len <= end <= |text|
    ensures OccursAt(Marked(text, ContextStart(idx, maxChars), end), text[idx..idx + len], MatchOffset(idx, maxChars))
    ensures |Marked(text, ContextStart(idx, maxChars), end)| <= end - ContextStart(idx, maxChars) + 6
  {
    var start := ContextStart(idx, maxChars);
    var pre := if start > 0 then "..." else "";
    var post := if end < |text| then "..." else "";
    assert Marked(text, start, end) == pre + text[start..end] + post;
    WindowHoldsMatch(Marked(text, start, end), text, idx, len, start, end, pre, post);
  }

  /** The window `text[start..end]` between two marks holds every match inside it. */
  lemma WindowHoldsMatch(r: string, text: string, idx: nat, len: nat, start: nat, end: nat, pre: string, post: string)
    requires start <= idx && idx + len <= end <= |text| && r == pre + text[start..end] + post
    ensures OccursAt(r, text[idx..idx + len], |pre| + idx - start)
  {
    var w := text[start..end];
    assert r[|pre|..|pre| + |w|] == w;
    assert w[idx - start..idx - start + len] == text[idx..idx + len] by {
      forall k | idx - start <= k < idx - start + len ensures w[k] == text[start + k] { }
    }
    var i := |pre| + idx - start;
    assert r[i..i + len] == r[|pre|..|pre| + |w|][idx - start..idx - start + len];
  }

  // ---------------------------------------------------------------------------------------------
  // Summary and sections
  // ---------------------------------------------------------------------------------------------

  /** `repo_summary`'s answer. */
  datatype RepoSummary =
    | SummaryNotFound(message: string)
    | RepoSummary(name: string, indexedAt: string, summary: Summary, build: BuildInfo, readme: Option<string>, apiCount: nat)

  function NotFoundMessage(name: string): string {
    "Repository not found: " + name
  }

  /** `repo_summary` over the loaded record. */
  function SummaryOf(name: string, data: Option<RepositoryIndex>): (r: RepoSummary)
    ensures data.None? <==> r == SummaryNotFound(NotFoundMessage(name))
    ensures data.Some? ==>
      r.RepoSummary? && r.name == data.value.name && r.summary == data.value.summary
      && r.build == data.value.build && r.readme == data.value.readme && r.apiCount == |data.value.apis|
  {
    match data
    case None => SummaryNotFound(NotFoundMessage(name))
    case Some(d) => RepoSummary(d.name, d.indexedAt, d.summary, d.build, d.readme, |d.apis|)
  }

  /** For a record the indexer built, the summary's endpoint count agrees with the count the
      indexer wrote. */
  lemma SummaryCountsAgree(cfg: IndexConfig, md5: string -> string, decode: string -> PackageDecode,
                           name: string, path: string, now: string, entries: seq<FsEntry>)
    ensures IndexOf(cfg, md5, decode, name, path, now, entries).Some? ==>
      var d := IndexOf(cfg, md5, decode, name, path, now, entries).value;
      SummaryOf(name, Some(d)).apiCount == d.summary.apiEndpoints
  {
    IndexIsConsistent(cfg, md5, decode, name, path, now, entries);
  }

  /** The sections `repo_detail` serves. */
  const ValidSections: set<string> :=
    {"apis", "services", "models", "controllers", "configs", "structure", "build", "summary", "readme"}

  /** `sorted(valid_sections)`. */
  const SortedSections: seq<string> :=
    ["apis", "build", "configs", "controllers", "models", "readme", "services", "structure", "summary"]

  /** The listing in the error answer is the valid sections in sorted order. */
  lemma SortedSectionsAreSorted()
    ensures SortedSections == SortedSet(ValidSections)
  {
    var r := SortedSections;
    assert Less(r[0], r[1]) && Less(r[1], r[2]);
    assert Less("onfigs", "ontrollers") by {
      assert "onfigs"[1..] == "nfigs" && "ontrollers"[1..] == "ntrollers";
      assert "nfigs"[1..] == "figs" && "ntrollers"[1..] == "trollers";
    }
    assert Less(r[2], r[3]);
    assert Less(r[3], r[4]) && Less(r[4], r[5]) && Less(r[5], r[6]);
    assert Less("ervices", "tructure");
    assert Less(r[6], r[7]);
    assert Less("tructure", "ummary");
    assert Less(r[7], r[8]);
    SortedByNeighbours(r);
    SortedUnique(r, SortedSet(ValidSections));
  }

  /** The value of one section of a record. */
  datatype SectionData =
    | ApisData(endpoints: seq<Endpoint>)
    | FilesData(files: seq<SlimRecord>)
    | StructureData(tree: Tree)
    | BuildData(build: BuildInfo)
    | SummaryData(summary: Summary)
    | ReadmeData(readme: Option<string>)

  /** `data[section]` for a valid section. */
  function SectionOf(d: RepositoryIndex, section: string): (r: Option<SectionData>)
    ensures r.Some? <==> section in ValidSections
  {
    match section
    case "apis" => Some(ApisData(d.apis))
    case "services" => Some(FilesData(d.services))
    case "models" => Some(FilesData(d.models))
    case "controllers" => Some(FilesData(d.controllers))
    case "configs" => Some(FilesData(d.configs))
    case "structure" => Some(StructureData(d.structure))
    case "build" => Some(BuildData(d.build))
    case "summary" => Some(SummaryData(d.summary))
    case "readme" => Some(ReadmeData(d.readme))
    case _ => None
  }

  /** `repo_detail`'s answer. */
  datatype RepoDetail =
    | DetailNotFound(message: string)
    | InvalidSection(message: string, validSections: seq<string>)
    | Detail(repo: string, section: string, data: SectionData)

  /** `repo_detail` over the loaded record: an unknown repository, then an unknown section, are
      errors; otherwise the section's data. */
  function DetailOf(name: string, data: Option<RepositoryIndex>, section: string): RepoDetail {
    match data
    case None => DetailNotFound(NotFoundMessage(name))
    case Some(d) =>
      match SectionOf(d, section)
      case None => InvalidSection("Invalid section: " + section, SortedSections)
      case Some(s) => Detail(name, section, s)
  }

  /** The three outcomes of `repo_detail`, each exactly when its condition holds: an unknown
      repository, then a section outside the nine, which lists the valid sections in sorted
      order (`SortedSectionsAreSorted`), and otherwise that section's data. */
  lemma DetailCases(name: string, data: Option<RepositoryIndex>, section: string)
    ensures DetailOf(name, data, section).DetailNotFound? <==> data.None?
    ensures DetailOf(name, data, section).InvalidSection? <==> data.Some? && section !in ValidSections
    ensures DetailOf(name, data, section).InvalidSection? ==>
      DetailOf(name, data, section).validSections == SortedSections
    ensures DetailOf(name, data, section).Detail? ==>
      DetailOf(name, data, section).data == SectionOf(data.value, section).value
  {
  }

  // ---------------------------------------------------------------------------------------------
  // find_file
  // ---------------------------------------------------------------------------------------------

  /** The sections of file lists, in the order `find_file` and `search` visit them. */
  const FileSections: seq<string> := ["services", "models", "controllers", "configs"]

  function FilesOf(d: RepositoryIndex, k: nat): seq<SlimRecord>
    requires k < |FileSections|
  {
    if k == 0 then d.services else if k == 1 then d.models else if k == 2 then d.controllers else d.configs
  }

  /** A file `find_file` reports, with the section it was listed in. */
  datatype FileMatch = FileMatch(path: string, name: string, kind: Option<Role>, section: string)

  /** The items of one section whose path contains the pattern, ignoring case, in order. */
  function SectionMatches(items: seq<SlimRecord>, section: string, pattern: string): seq<FileMatch> {
    if items == [] then []
    else
      var last := items[|items| - 1];
      SectionMatches(items[..|items| - 1], section, pattern)
      + if ContainsIgnoreCase(last.path, pattern) then [FileMatch(last.path, last.name, last.role, section)] else []
  }

  /** The matches of the first `k` sections. */
  function MatchesUpTo(d: RepositoryIndex, pattern: string, k: nat): seq<FileMatch>
    requires k <= |FileSections|
  {
    if k == 0 then []
    else MatchesUpTo(d, pattern, k - 1) + SectionMatches(FilesOf(d, k - 1), FileSections[k - 1], pattern)
  }

  /** A match is reported exactly for each listed item whose path contains the pattern. */
  lemma {:induction false} SectionMatchesExact(items: seq<SlimRecord>, section: string, pattern: string, m: FileMatch)
    ensures m in SectionMatches(items, section, pattern) <==>
      exists it :: it in items && ContainsIgnoreCase(it.path, pattern) && m == FileMatch(it.path, it.name, it.role, section)
  {
    if items != [] {
      var init := items[..|items| - 1];
      SectionMatchesExact(init, section, pattern, m);
      assert items == init + [items[|items| - 1]];
      if m in SectionMatches(init, section, pattern) {
        var it :| it in init && ContainsIgnoreCase(it.path, pattern) && m == FileMatch(it.path, it.name, it.role, section);
        assert it in items;
      }
    }
  }

  /** `find_file`'s answer. */
  datatype FindResult =
    | FindNotFound(message: string)
    | FoundFiles(repo: string, pattern: string, matches: seq<FileMatch>, total: nat)

  /** `find_file` over the loaded record. */
  function FindFileOf(name: string, data: Option<RepositoryIndex>, pattern: string): FindResult {
    match data
    case None => FindNotFound(NotFoundMessage(name))
    case Some(d) =>
      var ms := MatchesUpTo(d, pattern, |FileSections|);
      FoundFiles(name, pattern, ms, |ms|)
  }

  /** Every reported file matches the pattern and comes from one of the four sections, each
      matching item of each section is reported under its section, and the total is the number
      of matches. */
  lemma FindFileExact(name: string, d: RepositoryIndex, pattern: string, m: FileMatch)
    ensures FindFileOf(name, Some(d), pattern).total == |FindFileOf(name, Some(d), pattern).matches|
    ensures m in FindFileOf(name, Some(d), pattern).matches <==>
      exists k, it :: 0 <= k < |FileSections| && it in FilesOf(d, k) && ContainsIgnoreCase(it.path, pattern)
                      && m == FileMatch(it.path, it.name, it.role, FileSections[k])
  {
    MatchesUpToExact(d, pattern, |FileSections|, m);
  }

  lemma {:induction false} MatchesUpToExact(d: RepositoryIndex, pattern: string, n: nat, m: FileMatch)
    requires n <= |FileSections|
    ensures m in MatchesUpTo(d, pattern, n) <==>
      exists k, it :: 0 <= k < n && it in FilesOf(d, k) && ContainsIgnoreCase(it.path, pattern)
                      && m == FileMatch(it.path, it.name, it.role, FileSections[k])
  {
    if n > 0 {
      MatchesUpToExact(d, pattern, n - 1, m);
      SectionMatchesExact(FilesOf(d, n - 1), FileSections[n - 1], pattern, m);
    }
  }

  /** The loop over the four sections. */
  method CollectMatches(d: RepositoryIndex, pattern: string) returns (matches: seq<FileMatch>)
    ensures matches == MatchesUpTo(d, pattern, |FileSections|)
  {
    matches := [];
    for k := 0 to |FileSections|
      invariant matches == MatchesUpTo(d, pattern, k)
    {
      matches := AppendMatches(matches, FilesOf(d, k), FileSections[k], pattern);
    }
  }

  /** The loop over one section's items. */
  method AppendMatches(prefix: seq<FileMatch>, items: seq<SlimRecord>, section: string, pattern: string)
    returns (matches: seq<FileMatch>)
    ensures matches == prefix + SectionMatches(items, section, pattern)
  {
    matches := prefix;
    for j := 0 to |items|
      invariant matches == prefix + SectionMatches(items[..j], section, pattern)
    {
      assert items[..j + 1][..j] == items[..j];
      var item := items[j];
      if ContainsIgnoreCase(item.path, pattern) {
        matches := matches + [FileMatch(item.path, item.name, item.role, section)];
      }
    }
    assert items[..|items|] == items;
  }

  // ---------------------------------------------------------------------------------------------
  // list_apis
  // ---------------------------------------------------------------------------------------------

  /** An endpoint as `list_apis` returns it; the `repo` key is only there when it lists more than
      one repository. */
  datatype ApiEntry = ApiEntry(verb: string, path: string, file: string, repo: Option<string>)

  function Plain(eps: seq<Endpoint>): (r: seq<ApiEntry>)
    ensures |r| == |eps|
    ensures forall k :: 0 <= k < |r| ==> r[k] == ApiEntry(eps[k].verb, eps[k].path, eps[k].file, None)
  {
    seq(|eps|, k requires 0 <= k < |eps| => ApiEntry(eps[k].verb, eps[k].path, eps[k].file, None))
  }

  function Tagged(eps: seq<Endpoint>, repo: string): (r: seq<ApiEntry>)
    ensures |r| == |eps|
    ensures forall k :: 0 <= k < |r| ==> r[k] == ApiEntry(eps[k].verb, eps[k].path, eps[k].file, Some(repo))
  {
    seq(|eps|, k requires 0 <= k < |eps| => ApiEntry(eps[k].verb, eps[k].path, eps[k].file, Some(repo)))
  }

  function FromCatalog(es: seq<CatalogEntry>): (r: seq<ApiEntry>)
    ensures |r| == |es|
    ensures forall k :: 0 <= k < |r| ==> r[k] == ApiEntry(es[k].verb, es[k].path, es[k].file, Some(es[k].repo))
  {
    seq(|es|, k requires 0 <= k < |es| => ApiEntry(es[k].verb, es[k].path, es[k].file, Some(es[k].repo)))
  }

  /** The fallback listing: each readable repository's endpoints, tagged with its name, in the
      order of `names`. */
  function Fallback(store: map<string, Option<RepositoryIndex>>, names: seq<string>): seq<ApiEntry> {
    if names == [] then []
    else
      var last := names[|names| - 1];
      Fallback(store, names[..|names| - 1]) + RepoApis(store, last)
  }

  /** One cached repository's endpoints tagged with its name; none when it is not cached. */
  function RepoApis(store: map<string, Option<RepositoryIndex>>, name: string): seq<ApiEntry> {
    match Stored(store, name)
    case Some(d) => Tagged(d.apis, name)
    case None => []
  }

  lemma FallbackStep(store: map<string, Option<RepositoryIndex>>, names: seq<string>, i: nat)
    requires i < |names|
    ensures Fallback(store, names[..i + 1]) == Fallback(store, names[..i]) + RepoApis(store, names[i])
  {
    assert names[..i + 1][..i] == names[..i];
  }

  /** `list_apis`: one repository's endpoints when a name is given (none for an unknown one);
      otherwise the API catalog when there is one, else the fallback over every cached
      repository. */
  function ListApisOf(store: map<string, Option<RepositoryIndex>>, catalog: Option<ApiCatalog>, repo: Option<string>)
    : seq<ApiEntry>
  {
    if repo.Some? && repo.value != "" then
      match Stored(store, repo.value) case Some(d) => Plain(d.apis) case None => []
    else if catalog.Some? then FromCatalog(catalog.value.endpoints)
    else Fallback(store, ListRepos(store))
  }

  /** When every cache file is readable, the fallback lists exactly what the API catalog built
      from the same records lists, in the same order. */
  lemma FallbackIsCatalog(store: map<string, Option<RepositoryIndex>>)
    requires forall n :: n in store ==> store[n].Some?
    ensures var results := map n | n in store :: store[n].value;
      Fallback(store, ListRepos(store)) == FromCatalog(Catalog(Names(results), results))
  {
    var results := map n | n in store :: store[n].value;
    assert results.Keys == store.Keys;
    FallbackIsCatalogUpTo(store, results, ListRepos(store));
  }

  lemma {:induction false} FallbackIsCatalogUpTo(store: map<string, Option<RepositoryIndex>>,
                                                 results: map<string, RepositoryIndex>, names: seq<string>)
    requires forall n :: n in names ==> n in store && n in results && store[n] == Some(results[n])
    ensures Fallback(store, names) == FromCatalog(Catalog(names, results))
  {
    if names != [] {
      var init := names[..|names| - 1];
      var last := names[|names| - 1];
      FallbackIsCatalogUpTo(store, results, init);
      assert Tagged(results[last].apis, last) == FromCatalog(Tag(results[last].apis, last));
      assert FromCatalog(Catalog(init, results) + Tag(results[last].apis, last))
          == FromCatalog(Catalog(init, results)) + FromCatalog(Tag(results[last].apis, last));
    }
  }

  /** The inner loop of the fallback: one repository's endpoints appended with its name. */
  method AppendTaggedApis(prefix: seq<ApiEntry>, eps: seq<Endpoint>, repo: string) returns (all: seq<ApiEntry>)
    ensures all == prefix + Tagged(eps, repo)
  {
    all := prefix;
    for j := 0 to |eps|
      invariant all == prefix + Tagged(eps[..j], repo)
    {
      assert Tagged(eps[..j + 1], repo) == Tagged(eps[..j], repo) + [ApiEntry(eps[j].verb, eps[j].path, eps[j].file, Some(repo))];
      all := all + [ApiEntry(eps[j].verb, eps[j].path, eps[j].file, Some(repo))];
    }
    assert eps[..|eps|] == eps;
  }

  // ---------------------------------------------------------------------------------------------
  // search
  // ---------------------------------------------------------------------------------------------

  /** One search result of each category. */
  datatype Hit =
    | FileHit(repo: string, path: string, name: string, kind: Option<Role>)
    | ClassHit(repo: string, path: string, className: string, kind: Option<Role>)
    | ApiHit(repo: string, verb: string, path: string, file: string)
    | ReadmeHit(repo: string, excerpt: string)

  /** The four result lists while the search runs. */
  datatype Found = Found(files: seq<Hit>, apis: seq<Hit>, classes: seq<Hit>, readme: seq<Hit>)

  const NothingFound := Found([], [], [], [])

  /** The largest length a capped list can reach. */
  function Cap(max: int): nat {
    if max < 0 then 0 else max
  }

  /** One item of a file section: nothing once the file list is full; a file hit when the path
      matches; otherwise a class hit when the class matches and the class list has room. */
  function ItemStep(f: Found, repo: string, item: SlimRecord, q: string, max: int): Found {
    if |f.files| >= max then f
    else if ContainsIgnoreCase(item.path, q) then
      f.(files := f.files + [FileHit(repo, item.path, item.name, item.role)])
    else if ContainsIgnoreCase(item.primaryClass.GetOr(""), q) && |f.classes| < max then
      f.(classes := f.classes + [ClassHit(repo, item.path, item.primaryClass.GetOr(""), item.role)])
    else f
  }

  /** The items of a section, one after the other. */
  function ItemsFrom(f: Found, repo: string, items: seq<SlimRecord>, q: string, max: int): (r: Found)
    ensures r.apis == f.apis && r.readme == f.readme
    decreases |items|
  {
    if items == [] then f else ItemsFrom(ItemStep(f, repo, items[0], q, max), repo, items[1..], q, max)
  }

  /** The file sections from the `k`-th on. */
  function SectionsFrom(f: Found, repo: string, d: RepositoryIndex, k: nat, q: string, max: int): (r: Found)
    requires k <= |FileSections|
    ensures r.apis == f.apis && r.readme == f.readme
    decreases |FileSections| - k
  {
    if k == |FileSections| then f
    else SectionsFrom(ItemsFrom(f, repo, FilesOf(d, k), q, max), repo, d, k + 1, q, max)
  }

  /** One endpoint: nothing once the list is full, a hit when its path matches. */
  function ApiStep(f: Found, repo: string, api: Endpoint, q: string, max: int): Found {
    if |f.apis| >= max then f
    else if ContainsIgnoreCase(api.path, q) then f.(apis := f.apis + [ApiHit(repo, api.verb, api.path, api.file)])
    else f
  }

  function ApisFrom(f: Found, repo: string, apis: seq<Endpoint>, q: string, max: int): (r: Found)
    ensures r.files == f.files && r.classes == f.classes && r.readme == f.readme
    decreases |apis|
  {
    if apis == [] then f else ApisFrom(ApiStep(f, repo, apis[0], q, max), repo, apis[1..], q, max)
  }

  /** How many characters of context a README mention shows. */
  const MentionChars := 200

  /** A README that is present, not empty and mentions the query gives one uncapped hit. */
  function ReadmeStep(f: Found, repo: string, readme: Option<string>, query: string): Found {
    match readme
    case Some(text) =>
      if text != "" && ContainsIgnoreCase(text, query) then
        f.(readme := f.readme + [ReadmeHit(repo, ExtractContext(text, query, MentionChars))])
      else f
    case None => f
  }

  predicate SearchesFiles(scope: string) { scope == "all" || scope == "files" }
  predicate SearchesApis(scope: string) { scope == "all" || scope == "apis" }
  predicate SearchesReadme(scope: string) { scope == "all" }

  /** One repository: its file sections, its endpoints and its README, each only when the scope
      asks for it. */
  function RepoStep(f: Found, repo: string, d: RepositoryIndex, query: string, scope: string, max: int): Found {
    var f1 := if SearchesFiles(scope) then SectionsFrom(f, repo, d, 0, query, max) else f;
    var f2 := if SearchesApis(scope) then ApisFrom(f1, repo, d.apis, query, max) else f1;
    if SearchesReadme(scope) then ReadmeStep(f2, repo, d.readme, query) else f2
  }

  /** The repositories of `names` whose record loads, one after the other. */
  function ReposFrom(f: Found, store: map<string, Option<RepositoryIndex>>, names: seq<string>,
                     query: string, scope: string, max: int): Found
    decreases |names|
  {
    if names == [] then f
    else ReposFrom(SearchStored(f, store, names[0], query, scope, max), store, names[1..], query, scope, max)
  }

  /** One repository of the search: searched when its record loads, skipped otherwise. */
  function SearchStored(f: Found, store: map<string, Option<RepositoryIndex>>, name: string,
                        query: string, scope: string, max: int): Found {
    match Stored(store, name)
    case Some(d) => RepoStep(f, name, d, query, scope, max)
    case None => f
  }

  /** The answer of `search`: the non-empty categories in the order files, apis, classes,
      README mentions; the total of their lengths; and whether that total reached the cap. */
  datatype SearchResult = SearchResult(query: string, scope: string, total: nat, results: seq<(string, seq<Hit>)>, truncated: bool)

  function NonEmpty(key: string, hits: seq<Hit>): seq<(string, seq<Hit>)> {
    if hits == [] then [] else [(key, hits)]
  }

  function Summarize(f: Found, query: string, scope: string, max: int): SearchResult {
    var total := |f.files| + |f.apis| + |f.classes| + |f.readme|;
    SearchResult(query, scope, total, Categories(f), total >= max)
  }

  /** `search` over the cache. */
  function SearchOf(store: map<string, Option<RepositoryIndex>>, query: string, scope: string, max: int): SearchResult {
    Summarize(ReposFrom(NothingFound, store, ListRepos(store), query, scope, max), query, scope, max)
  }

  /** The invariant of the search state: the three capped lists are within the cap, every hit
      is of its list's kind and matches the query (a class hit only when its path does not), and
      the lists the scope leaves out are empty. */
  predicate Capped(f: Found, max: int) {
    |f.files| <= Cap(max) && |f.apis| <= Cap(max) && |f.classes| <= Cap(max)
  }

  predicate Sound(f: Found, q: string) {
    (forall h :: h in f.files ==> h.FileHit? && ContainsIgnoreCase(h.path, q))
    && (forall h :: h in f.classes ==>
          h.ClassHit? && !ContainsIgnoreCase(h.path, q) && ContainsIgnoreCase(h.className, q))
    && (forall h :: h in f.apis ==> h.ApiHit? && ContainsIgnoreCase(h.path, q))
    && (forall h :: h in f.readme ==> h.ReadmeHit?)
  }

  predicate Gated(f: Found, scope: string) {
    (!SearchesFiles(scope) ==> f.files == [] && f.classes == [])
    && (!SearchesApis(scope) ==> f.apis == [])
    && (!SearchesReadme(scope) ==> f.readme == [])
  }

  predicate Inv(f: Found, q: string, scope: string, max: int) {
    Capped(f, max) && Sound(f, q) && Gated(f, scope)
  }

  lemma {:induction false} ItemsFromKeeps(f: Found, repo: string, items: seq<SlimRecord>, q: string, max: int)
    requires Capped(f, max) && Sound(f, q)
    ensures Capped(ItemsFrom(f, repo, items, q, max), max) && Sound(ItemsFrom(f, repo, items, q, max), q)
    decreases |items|
  {
    if items != [] {
      ItemsFromKeeps(ItemStep(f, repo, items[0], q, max), repo, items[1..], q, max);
    }
  }

  lemma {:induction false} SectionsFromKeeps(f: Found, repo: string, d: RepositoryIndex, k: nat, q: string, max: int)
    requires k <= |FileSections| && Capped(f, max) && Sound(f, q)
    ensures Capped(SectionsFrom(f, repo, d, k, q, max), max) && Sound(SectionsFrom(f, repo, d, k, q, max), q)
    decreases |FileSections| - k
  {
    if k < |FileSections| {
      ItemsFromKeeps(f, repo, FilesOf(d, k), q, max);
      SectionsFromKeeps(ItemsFrom(f, repo, FilesOf(d, k), q, max), repo, d, k + 1, q, max);
    }
  }

  lemma {:induction false} ApisFromKeeps(f: Found, repo: string, apis: seq<Endpoint>, q: string, max: int)
    requires Capped(f, max) && Sound(f, q)
    ensures Capped(ApisFrom(f, repo, apis, q, max), max) && Sound(ApisFrom(f, repo, apis, q, max), q)
    decreases |apis|
  {
    if apis != [] {
      ApisFromKeeps(ApiStep(f, repo, apis[0], q, max), repo, apis[1..], q, max);
    }
  }

  lemma RepoStepKeeps(f: Found, repo: string, d: RepositoryIndex, query: string, scope: string, max: int)
    requires Inv(f, query, scope, max)
    ensures Inv(RepoStep(f, repo, d, query, scope, max), query, scope, max)
  {
    var f1 := if SearchesFiles(scope) then SectionsFrom(f, repo, d, 0, query, max) else f;
    if SearchesFiles(scope) {
      SectionsFromKeeps(f, repo, d, 0, query, max);
    }
    var f2 := if SearchesApis(scope) then ApisFrom(f1, repo, d.apis, query, max) else f1;
    if SearchesApis(scope) {
      ApisFromKeeps(f1, repo, d.apis, query, max);
    }
  }

  lemma {:induction false} ReposFromKeeps(f: Found, store: map<string, Option<RepositoryIndex>>, names: seq<string>,
                                          query: string, scope: string, max: int)
    requires Inv(f, query, scope, max)
    ensures Inv(ReposFrom(f, store, names, query, scope, max), query, scope, max)
    decreases |names|
  {
    if names != [] {
      var f1 := SearchStored(f, store, names[0], query, scope, max);
      if Stored(store, names[0]).Some? {
        RepoStepKeeps(f, names[0], Stored(store, names[0]).value, query, scope, max);
      }
      ReposFromKeeps(f1, store, names[1..], query, scope, max);
    }
  }

  /** The listed categories of a search state: each one non-empty and holding its list. */
  function Categories(f: Found): seq<(string, seq<Hit>)> {
    NonEmpty("files", f.files) + NonEmpty("apis", f.apis) + NonEmpty("classes", f.classes)
    + NonEmpty("readme_mentions", f.readme)
  }

  lemma CategoriesAre(f: Found, c: (string, seq<Hit>))
    requires c in Categories(f)
    ensures c.1 != []
    ensures c == ("files", f.files) || c == ("apis", f.apis) || c == ("classes", f.classes)
            || c == ("readme_mentions", f.readme)
  {
  }

  /** The state after every repository satisfies the invariant. */
  lemma SearchFound(store: map<string, Option<RepositoryIndex>>, query: string, scope: string, max: int)
    ensures var f := ReposFrom(NothingFound, store, ListRepos(store), query, scope, max);
      Inv(f, query, scope, max) && SearchOf(store, query, scope, max) == Summarize(f, query, scope, max)
  {
    ReposFromKeeps(NothingFound, store, ListRepos(store), query, scope, max);
  }

  /** Only non-empty categories are listed, the files, apis and classes lists never exceed
      `max_results` (README mentions are not capped), and the scope decides which categories
      can appear at all. */
  lemma SearchCapsAndScope(store: map<string, Option<RepositoryIndex>>, query: string, scope: string, max: int,
                           c: (string, seq<Hit>))
    requires c in SearchOf(store, query, scope, max).results
    ensures c.1 != []
    ensures c.0 != "readme_mentions" ==> |c.1| <= Cap(max)
    ensures c.0 == "files" || c.0 == "classes" ==> SearchesFiles(scope)
    ensures c.0 == "apis" ==> SearchesApis(scope)
    ensures c.0 == "readme_mentions" ==> SearchesReadme(scope)
  {
    SearchFound(store, query, scope, max);
    CategoriesAre(ReposFrom(NothingFound, store, ListRepos(store), query, scope, max), c);
  }

  /** Every listed hit matches the query: a file or endpoint by its path, a class by its class
      name and only for an item whose path did not match, a README mention by the README of
      the stored repository it names, whose context it shows. */
  lemma SearchHitsMatch(store: map<string, Option<RepositoryIndex>>, query: string, scope: string, max: int,
                        c: (string, seq<Hit>), h: Hit)
    requires c in SearchOf(store, query, scope, max).results && h in c.1
    ensures c.0 == "files" ==> h.FileHit? && ContainsIgnoreCase(h.path, query)
    ensures c.0 == "classes" ==>
      h.ClassHit? && !ContainsIgnoreCase(h.path, query) && ContainsIgnoreCase(h.className, query)
    ensures c.0 == "apis" ==> h.ApiHit? && ContainsIgnoreCase(h.path, query)
    ensures c.0 == "readme_mentions" ==>
      h.ReadmeHit? && MentionsQuery(store, h.repo, query) && h == MentionOf(store, h.repo, query)
  {
    SearchFound(store, query, scope, max);
    CategoriesAre(ReposFrom(NothingFound, store, ListRepos(store), query, scope, max), c);
    if c.0 == "readme_mentions" {
      SearchReadmeMentions(store, query, scope, max);
      StoreMentions(store, ListRepos(store), query);
    }
  }

  /** The total is the number of listed hits, and `truncated` is set exactly when it reaches
      `max_results`. */
  lemma SearchTotal(store: map<string, Option<RepositoryIndex>>, query: string, scope: string, max: int)
    ensures SearchOf(store, query, scope, max).total == Total(SearchOf(store, query, scope, max).results)
    ensures SearchOf(store, query, scope, max).truncated <==> SearchOf(store, query, scope, max).total >= max
  {
    TotalOfCategories(ReposFrom(NothingFound, store, ListRepos(store), query, scope, max));
  }

  /** The number of hits over the listed categories. */
  function Total(results: seq<(string, seq<Hit>)>): nat {
    if results == [] then 0 else |results[0].1| + Total(results[1..])
  }

  lemma TotalOfCategories(f: Found)
    ensures Total(Categories(f)) == |f.files| + |f.apis| + |f.classes| + |f.readme|
  {
    TotalAppend(NonEmpty("files", f.files), NonEmpty("apis", f.apis));
    TotalAppend(NonEmpty("files", f.files) + NonEmpty("apis", f.apis), NonEmpty("classes", f.classes));
    TotalAppend(NonEmpty("files", f.files) + NonEmpty("apis", f.apis) + NonEmpty("classes", f.classes),
                NonEmpty("readme_mentions", f.readme));
  }

  lemma {:induction false} TotalAppend(a: seq<(string, seq<Hit>)>, b: seq<(string, seq<Hit>)>)
    ensures Total(a + b) == Total(a) + Total(b)
  {
    if a == [] {
      assert a + b == b;
    } else {
      assert (a + b)[0] == a[0] && (a + b)[1..] == a[1..] + b;
      TotalAppend(a[1..], b);
    }
  }

  /** The "classes" scope (like any scope other than all, files and apis) finds nothing. */
  lemma ClassesScopeFindsNothing(store: map<string, Option<RepositoryIndex>>, query: string, max: int)
    ensures SearchOf(store, query, "classes", max).results == []
    ensures SearchOf(store, query, "classes", max).total == 0
  {
    var f := ReposFrom(NothingFound, store, ListRepos(store), query, "classes", max);
    ReposFromKeeps(NothingFound, store, ListRepos(store), query, "classes", max);
  }

  /** The items of a section whose path matches, as file hits, in order. */
  function FileHits(repo: string, items: seq<SlimRecord>, q: string): seq<Hit> {
    if items == [] then []
    else (if ContainsIgnoreCase(items[0].path, q) then [FileHit(repo, items[0].path, items[0].name, items[0].role)] else [])
         + FileHits(repo, items[1..], q)
  }

  /** The items whose path does not match but whose class does, as class hits, in order. */
  function ClassHits(repo: string, items: seq<SlimRecord>, q: string): seq<Hit> {
    if items == [] then []
    else (if !ContainsIgnoreCase(items[0].path, q) && ContainsIgnoreCase(items[0].primaryClass.GetOr(""), q)
          then [ClassHit(repo, items[0].path, items[0].primaryClass.GetOr(""), items[0].role)] else [])
         + ClassHits(repo, items[1..], q)
  }

  /** The hit one item adds to the files while the list is not full. */
  function FileHitOf(repo: string, item: SlimRecord, q: string): seq<Hit> {
    if ContainsIgnoreCase(item.path, q) then [FileHit(repo, item.path, item.name, item.role)] else []
  }

  /** The hit one item adds to the classes while that list has room. */
  function ClassHitOf(repo: string, item: SlimRecord, q: string): seq<Hit> {
    if !ContainsIgnoreCase(item.path, q) && ContainsIgnoreCase(item.primaryClass.GetOr(""), q)
    then [ClassHit(repo, item.path, item.primaryClass.GetOr(""), item.role)] else []
  }

  /** One item, while the file list is not full, adds its file hit, and its class hit unless the
      class list is full. */
  lemma ItemStepUncapped(f: Found, repo: string, item: SlimRecord, q: string, max: int)
    requires |f.files| < max
    requires |f.classes| < max || ClassHitOf(repo, item, q) == []
    ensures ItemStep(f, repo, item, q, max).files == f.files + FileHitOf(repo, item, q)
    ensures ItemStep(f, repo, item, q, max).classes == f.classes + ClassHitOf(repo, item, q)
  {
  }

  lemma AppendAssoc(a: seq<Hit>, b: seq<Hit>, c: seq<Hit>)
    ensures (a + b) + c == a + (b + c)
  {
  }

  /** A section's file hits: the first item's, then the rest's. */
  lemma FileHitsCons(repo: string, items: seq<SlimRecord>, q: string)
    requires items != []
    ensures FileHits(repo, items, q) == FileHitOf(repo, items[0], q) + FileHits(repo, items[1..], q)
  {
  }

  /** A section's class hits: the first item's, then the rest's. */
  lemma ClassHitsCons(repo: string, items: seq<SlimRecord>, q: string)
    requires items != []
    ensures ClassHits(repo, items, q) == ClassHitOf(repo, items[0], q) + ClassHits(repo, items[1..], q)
  {
  }

  /** While the file hits stay below `max` and the class hits within it, a section contributes
      every item whose path matches to the files and every other item whose class matches to
      the classes, in order. */
  lemma {:induction false} ItemsFromUncapped(f: Found, repo: string, items: seq<SlimRecord>, q: string, max: int)
    requires |f.files| + |FileHits(repo, items, q)| < max
    requires |f.classes| + |ClassHits(repo, items, q)| <= max
    ensures ItemsFrom(f, repo, items, q, max).files == f.files + FileHits(repo, items, q)
    ensures ItemsFrom(f, repo, items, q, max).classes == f.classes + ClassHits(repo, items, q)
    decreases |items|
  {
    if items != [] {
      FileHitsCons(repo, items, q);
      ClassHitsCons(repo, items, q);
      var f1 := ItemStep(f, repo, items[0], q, max);
      ItemStepUncapped(f, repo, items[0], q, max);
      ItemsFromUncapped(f1, repo, items[1..], q, max);
      AppendAssoc(f.files, FileHitOf(repo, items[0], q), FileHits(repo, items[1..], q));
      AppendAssoc(f.classes, ClassHitOf(repo, items[0], q), ClassHits(repo, items[1..], q));
    }
  }

  /** The file hits of a repository's sections from the `k`-th on. */
  function SectionFileHits(repo: string, d: RepositoryIndex, k: nat, q: string): seq<Hit>
    requires k <= |FileSections|
    decreases |FileSections| - k
  {
    if k == |FileSections| then [] else FileHits(repo, FilesOf(d, k), q) + SectionFileHits(repo, d, k + 1, q)
  }

  /** The class hits of a repository's sections from the `k`-th on. */
  function SectionClassHits(repo: string, d: RepositoryIndex, k: nat, q: string): seq<Hit>
    requires k <= |FileSections|
    decreases |FileSections| - k
  {
    if k == |FileSections| then [] else ClassHits(repo, FilesOf(d, k), q) + SectionClassHits(repo, d, k + 1, q)
  }

  lemma {:induction false} SectionsFromUncapped(f: Found, repo: string, d: RepositoryIndex, k: nat, q: string, max: int)
    requires k <= |FileSections|
    requires |f.files| + |SectionFileHits(repo, d, k, q)| < max
    requires |f.classes| + |SectionClassHits(repo, d, k, q)| <= max
    ensures SectionsFrom(f, repo, d, k, q, max).files == f.files + SectionFileHits(repo, d, k, q)
    ensures SectionsFrom(f, repo, d, k, q, max).classes == f.classes + SectionClassHits(repo, d, k, q)
    decreases |FileSections| - k
  {
    if k < |FileSections| {
      var items := FilesOf(d, k);
      var fileHits, restFiles := FileHits(repo, items, q), SectionFileHits(repo, d, k + 1, q);
      var classHits, restClasses := ClassHits(repo, items, q), SectionClassHits(repo, d, k + 1, q);
      assert SectionFileHits(repo, d, k, q) == fileHits + restFiles;
      assert SectionClassHits(repo, d, k, q) == classHits + restClasses;
      ItemsFromUncapped(f, repo, items, q, max);
      var g := ItemsFrom(f, repo, items, q, max);
      assert SectionsFrom(f, repo, d, k, q, max) == SectionsFrom(g, repo, d, k + 1, q, max);
      SectionsFromUncapped(g, repo, d, k + 1, q, max);
      AppendAssoc(f.files, fileHits, restFiles);
      AppendAssoc(f.classes, classHits, restClasses);
    }
  }

  /** The endpoints whose path matches, as API hits, in order. */
  function ApiHits(repo: string, apis: seq<Endpoint>, q: string): seq<Hit> {
    if apis == [] then []
    else (if ContainsIgnoreCase(apis[0].path, q) then [ApiHit(repo, apis[0].verb, apis[0].path, apis[0].file)] else [])
         + ApiHits(repo, apis[1..], q)
  }

  lemma {:induction false} ApisFromUncapped(f: Found, repo: string, apis: seq<Endpoint>, q: string, max: int)
    requires |f.apis| + |ApiHits(repo, apis, q)| <= max
    ensures ApisFrom(f, repo, apis, q, max).apis == f.apis + ApiHits(repo, apis, q)
    decreases |apis|
  {
    if apis != [] {
      var hit := if ContainsIgnoreCase(apis[0].path, q) then [ApiHit(repo, apis[0].verb, apis[0].path, apis[0].file)] else [];
      assert ApiHits(repo, apis, q) == hit + ApiHits(repo, apis[1..], q);
      var f1 := ApiStep(f, repo, apis[0], q, max);
      assert f1.apis == f.apis + hit;
      ApisFromUncapped(f1, repo, apis[1..], q, max);
      AppendAssoc(f.apis, hit, ApiHits(repo, apis[1..], q));
    }
  }

  /** `hits` when the scope searches that category, nothing otherwise. */
  function When(searched: bool, hits: seq<Hit>): seq<Hit> {
    if searched then hits else []
  }

  /** The README mention of one repository: present when its README is not empty and mentions
      the query. */
  function ReadmeHitOf(repo: string, readme: Option<string>, q: string): seq<Hit> {
    match readme
    case Some(text) => if text != "" && ContainsIgnoreCase(text, q) then [ReadmeHit(repo, ExtractContext(text, q, MentionChars))] else []
    case None => []
  }

  /** The hits of every repository of `names` whose record loads, in order, by category. */
  function StoreHits(store: map<string, Option<RepositoryIndex>>, names: seq<string>, q: string): (r: Found)
    decreases |names|
  {
    if names == [] then NothingFound
    else
      var rest := StoreHits(store, names[1..], q);
      match Stored(store, names[0])
      case Some(d) =>
        var n := names[0];
        Found(SectionFileHits(n, d, 0, q) + rest.files, ApiHits(n, d.apis, q) + rest.apis,
              SectionClassHits(n, d, 0, q) + rest.classes, ReadmeHitOf(n, d.readme, q) + rest.readme)
      case None => rest
  }

  /** Everything a repository contributes to a search state that stays within the caps. */
  lemma RepoStepUncapped(f: Found, repo: string, d: RepositoryIndex, q: string, scope: string, max: int)
    requires SearchesFiles(scope) ==> |f.files| + |SectionFileHits(repo, d, 0, q)| < max
    requires SearchesFiles(scope) ==> |f.classes| + |SectionClassHits(repo, d, 0, q)| <= max
    requires SearchesApis(scope) ==> |f.apis| + |ApiHits(repo, d.apis, q)| <= max
    ensures RepoStep(f, repo, d, q, scope, max).files == f.files + When(SearchesFiles(scope), SectionFileHits(repo, d, 0, q))
    ensures RepoStep(f, repo, d, q, scope, max).classes == f.classes + When(SearchesFiles(scope), SectionClassHits(repo, d, 0, q))
    ensures RepoStep(f, repo, d, q, scope, max).apis == f.apis + When(SearchesApis(scope), ApiHits(repo, d.apis, q))
    ensures RepoStep(f, repo, d, q, scope, max).readme == f.readme + When(SearchesReadme(scope), ReadmeHitOf(repo, d.readme, q))
  {
    if SearchesFiles(scope) {
      SectionsFromUncapped(f, repo, d, 0, q, max);
    }
    var f1 := if SearchesFiles(scope) then SectionsFrom(f, repo, d, 0, q, max) else f;
    if SearchesApis(scope) {
      ApisFromUncapped(f1, repo, d.apis, q, max);
    }
  }

  lemma {:induction false} ReposFromUncapped(f: Found, store: map<string, Option<RepositoryIndex>>, names: seq<string>,
                                             q: string, scope: string, max: int)
    requires SearchesFiles(scope) ==> |f.files| + |StoreHits(store, names, q).files| < max
    requires SearchesFiles(scope) ==> |f.classes| + |StoreHits(store, names, q).classes| <= max
    requires SearchesApis(scope) ==> |f.apis| + |StoreHits(store, names, q).apis| <= max
    ensures ReposFrom(f, store, names, q, scope, max).files == f.files + When(SearchesFiles(scope), StoreHits(store, names, q).files)
    ensures ReposFrom(f, store, names, q, scope, max).classes == f.classes + When(SearchesFiles(scope), StoreHits(store, names, q).classes)
    ensures ReposFrom(f, store, names, q, scope, max).apis == f.apis + When(SearchesApis(scope), StoreHits(store, names, q).apis)
    ensures ReposFrom(f, store, names, q, scope, max).readme == f.readme + When(SearchesReadme(scope), StoreHits(store, names, q).readme)
    decreases |names|
  {
    if names != [] {
      var n := names[0];
      var f1 := SearchStored(f, store, n, q, scope, max);
      var rest := StoreHits(store, names[1..], q);
      match Stored(store, n)
      case Some(d) =>
        RepoStepUncapped(f, n, d, q, scope, max);
        ReposFromUncapped(f1, store, names[1..], q, scope, max);
        AppendAssoc(f.files, When(SearchesFiles(scope), SectionFileHits(n, d, 0, q)), When(SearchesFiles(scope), rest.files));
        AppendAssoc(f.classes, When(SearchesFiles(scope), SectionClassHits(n, d, 0, q)), When(SearchesFiles(scope), rest.classes));
        AppendAssoc(f.apis, When(SearchesApis(scope), ApiHits(n, d.apis, q)), When(SearchesApis(scope), rest.apis));
        AppendAssoc(f.readme, When(SearchesReadme(scope), ReadmeHitOf(n, d.readme, q)), When(SearchesReadme(scope), rest.readme));
      case None =>
        ReposFromUncapped(f1, store, names[1..], q, scope, max);
    }
  }

  /** Completeness of `search`: while the matching files stay below `max_results` and the
      matching classes within it (when the scope searches files), and the matching endpoints
      within it (when the scope searches endpoints), the listed categories are exactly every
      matching item, endpoint and README of the stored repositories, repository by repository
      in name order, each category only when the scope searches it. */
  lemma SearchComplete(store: map<string, Option<RepositoryIndex>>, query: string, scope: string, max: int)
    requires SearchesFiles(scope) ==> |StoreHits(store, ListRepos(store), query).files| < max
    requires SearchesFiles(scope) ==> |StoreHits(store, ListRepos(store), query).classes| <= max
    requires SearchesApis(scope) ==> |StoreHits(store, ListRepos(store), query).apis| <= max
    ensures var all := StoreHits(store, ListRepos(store), query);
      SearchOf(store, query, scope, max).results
      == Categories(Found(When(SearchesFiles(scope), all.files), When(SearchesApis(scope), all.apis),
                          When(SearchesFiles(scope), all.classes), When(SearchesReadme(scope), all.readme)))
  {
    var all := StoreHits(store, ListRepos(store), query);
    ReposFromUncapped(NothingFound, store, ListRepos(store), query, scope, max);
    assert ReposFrom(NothingFound, store, ListRepos(store), query, scope, max)
      == Found(When(SearchesFiles(scope), all.files), When(SearchesApis(scope), all.apis),
               When(SearchesFiles(scope), all.classes), When(SearchesReadme(scope), all.readme));
  }

  /** A stored repository whose README is present, not empty and mentions the query. */
  predicate MentionsQuery(store: map<string, Option<RepositoryIndex>>, n: string, q: string) {
    Stored(store, n).Some? && Stored(store, n).value.readme.Some?
    && Stored(store, n).value.readme.value != "" && ContainsIgnoreCase(Stored(store, n).value.readme.value, q)
  }

  /** The mention such a repository gets: its name and the context of the query in its README. */
  function MentionOf(store: map<string, Option<RepositoryIndex>>, n: string, q: string): Hit
    requires MentionsQuery(store, n, q)
  {
    ReadmeHit(n, ExtractContext(Stored(store, n).value.readme.value, q, MentionChars))
  }

  /** The README hits over `names`: the head repository's mention, if it has one, then the
      rest's. */
  lemma StoreMentionsCons(store: map<string, Option<RepositoryIndex>>, names: seq<string>, q: string)
    requires names != []
    ensures StoreHits(store, names, q).readme
      == (if MentionsQuery(store, names[0], q) then [MentionOf(store, names[0], q)] else [])
         + StoreHits(store, names[1..], q).readme
  {
    var rest := StoreHits(store, names[1..], q);
    match Stored(store, names[0])
    case Some(d) =>
      assert StoreHits(store, names, q).readme == ReadmeHitOf(names[0], d.readme, q) + rest.readme;
    case None =>
      assert StoreHits(store, names, q) == rest;
  }

  /** Every README hit over `names` is the mention of one of them whose README mentions the
      query, and every such repository has its mention among the hits. */
  lemma {:induction false} StoreMentions(store: map<string, Option<RepositoryIndex>>, names: seq<string>, q: string)
    ensures forall h :: h in StoreHits(store, names, q).readme ==>
      h.ReadmeHit? && h.repo in names && MentionsQuery(store, h.repo, q) && h == MentionOf(store, h.repo, q)
    ensures forall n :: n in names && MentionsQuery(store, n, q) ==> MentionOf(store, n, q) in StoreHits(store, names, q).readme
    decreases |names|
  {
    if names != [] {
      StoreMentions(store, names[1..], q);
      StoreMentionsCons(store, names, q);
    }
  }

  /** Over names in increasing order, the README hits are in increasing order of repository,
      so each repository is mentioned at most once. */
  lemma {:induction false} StoreMentionsOrdered(store: map<string, Option<RepositoryIndex>>, names: seq<string>, q: string)
    requires StrictlySorted(names)
    ensures var r := StoreHits(store, names, q).readme;
      forall i, j :: 0 <= i < j < |r| ==> Less(r[i].repo, r[j].repo)
    decreases |names|
  {
    if names != [] {
      var n := names[0];
      var tail := names[1..];
      assert StrictlySorted(tail) by {
        forall i, j | 0 <= i < j < |tail| ensures Less(tail[i], tail[j]) {
          assert tail[i] == names[i + 1] && tail[j] == names[j + 1];
        }
      }
      StoreMentionsOrdered(store, tail, q);
      StoreMentions(store, tail, q);
      StoreMentionsCons(store, names, q);
      var rest := StoreHits(store, tail, q).readme;
      var head := if MentionsQuery(store, n, q) then [MentionOf(store, n, q)] else [];
      forall h | h in rest ensures Less(n, h.repo) {
        var k :| 0 <= k < |tail| && tail[k] == h.repo;
        assert names[k + 1] == h.repo;
      }
      OrderedCons(head, rest, n);
    }
  }

  /** A hit for `n` put before hits in increasing order of repository, all after `n`, keeps the
      order. */
  lemma OrderedCons(head: seq<Hit>, rest: seq<Hit>, n: string)
    requires |head| <= 1 && (head != [] ==> head[0].repo == n)
    requires forall h :: h in rest ==> Less(n, h.repo)
    requires forall i, j :: 0 <= i < j < |rest| ==> Less(rest[i].repo, rest[j].repo)
    ensures forall i, j :: 0 <= i < j < |head + rest| ==> Less((head + rest)[i].repo, (head + rest)[j].repo)
  {
    var r := head + rest;
    forall i, j | 0 <= i < j < |r| ensures Less(r[i].repo, r[j].repo) {
      if i < |head| {
        assert r[j] == rest[j - |head|];
      } else {
        assert r[i] == rest[i - |head|] && r[j] == rest[j - |head|];
      }
    }
  }

  lemma {:induction false} ReposFromReadme(f: Found, store: map<string, Option<RepositoryIndex>>, names: seq<string>,
                                           q: string, scope: string, max: int)
    ensures ReposFrom(f, store, names, q, scope, max).readme == f.readme + When(SearchesReadme(scope), StoreHits(store, names, q).readme)
    decreases |names|
  {
    if names != [] {
      var n := names[0];
      var f1 := SearchStored(f, store, n, q, scope, max);
      ReposFromReadme(f1, store, names[1..], q, scope, max);
      var rest := When(SearchesReadme(scope), StoreHits(store, names[1..], q).readme);
      match Stored(store, n)
      case Some(d) =>
        assert f1.readme == f.readme + When(SearchesReadme(scope), ReadmeHitOf(n, d.readme, q));
        AppendAssoc(f.readme, When(SearchesReadme(scope), ReadmeHitOf(n, d.readme, q)), rest);
      case None =>
    }
  }

  /** README mentions are never capped: with the `all` scope the search lists, under
      "readme_mentions", exactly the mentions of the stored repositories whose README mentions
      the query, in name order, and with any other scope it lists none. */
  lemma SearchReadmeMentions(store: map<string, Option<RepositoryIndex>>, query: string, scope: string, max: int)
    ensures var r := When(SearchesReadme(scope), StoreHits(store, ListRepos(store), query).readme);
      (r != [] ==> ("readme_mentions", r) in SearchOf(store, query, scope, max).results)
      && forall c :: c in SearchOf(store, query, scope, max).results && c.0 == "readme_mentions" ==> c.1 == r
  {
    var f := ReposFrom(NothingFound, store, ListRepos(store), query, scope, max);
    ReposFromReadme(NothingFound, store, ListRepos(store), query, scope, max);
    assert f.readme == When(SearchesReadme(scope), StoreHits(store, ListRepos(store), query).readme);
    forall c | c in SearchOf(store, query, scope, max).results && c.0 == "readme_mentions"
      ensures c.1 == f.readme
    {
      CategoriesAre(f, c);
    }
  }

  /** Once the file list is full, the rest of a section adds nothing, which is why `search` may
      leave the section at that point. */
  lemma {:induction false} FullFilesStop(f: Found, repo: string, items: seq<SlimRecord>, q: string, max: int)
    requires |f.files| >= max
    ensures ItemsFrom(f, repo, items, q, max) == f
    decreases |items|
  {
    if items != [] {
      FullFilesStop(f, repo, items[1..], q, max);
    }
  }

  lemma {:induction false} FullApisStop(f: Found, repo: string, apis: seq<Endpoint>, q: string, max: int)
    requires |f.apis| >= max
    ensures ApisFrom(f, repo, apis, q, max) == f
    decreases |apis|
  {
    if apis != [] {
      FullApisStop(f, repo, apis[1..], q, max);
    }
  }

  /** The search inside one repository, as `search` runs it. */
  method SearchRepo(f0: Found, repo: string, d: RepositoryIndex, query: string, scope: string, max: int)
    returns (f: Found)
    ensures f == RepoStep(f0, repo, d, query, scope, max)
  {
    f := f0;
    if scope == "all" || scope == "files" {
      for k := 0 to |FileSections|
        invariant SectionsFrom(f, repo, d, k, query, max) == SectionsFrom(f0, repo, d, 0, query, max)
      {
        f := SearchItems(f, repo, FilesOf(d, k), query, max);
      }
    }
    if scope == "all" || scope == "apis" {
      f := SearchApis(f, repo, d.apis, query, max);
    }
    if scope == "all" {
      match d.readme {
        case Some(text) =>
          if text != "" && ContainsIgnoreCase(text, query) {
            f := f.(readme := f.readme + [ReadmeHit(repo, ExtractContext(text, query, MentionChars))]);
          }
        case None =>
      }
    }
  }

  /** The loop over one section's items, leaving it once the file list is full. */
  method SearchItems(f0: Found, repo: string, items: seq<SlimRecord>, q: string, max: int) returns (f: Found)
    ensures f == ItemsFrom(f0, repo, items, q, max)
  {
    f := f0;
    var j := 0;
    while j < |items|
      invariant j <= |items|
      invariant ItemsFrom(f, repo, items[j..], q, max) == ItemsFrom(f0, repo, items, q, max)
    {
      if |f.files| >= max {
        FullFilesStop(f, repo, items[j..], q, max);
        break;
      }
      var item := items[j];
      if ContainsIgnoreCase(item.path, q) {
        f := f.(files := f.files + [FileHit(repo, item.path, item.name, item.role)]);
      } else if ContainsIgnoreCase(item.primaryClass.GetOr(""), q) {
        if |f.classes| < max {
          f := f.(classes := f.classes + [ClassHit(repo, item.path, item.primaryClass.GetOr(""), item.role)]);
        }
      }
      assert items[j..][1..] == items[j + 1..];
      j := j + 1;
    }
    if j == |items| {
      assert items[j..] == [];
    }
  }

  /** The loop over the endpoints, leaving it once the list is full. */
  method SearchApis(f0: Found, repo: string, apis: seq<Endpoint>, q: string, max: int) returns (f: Found)
    ensures f == ApisFrom(f0, repo, apis, q, max)
  {
    f := f0;
    var j := 0;
    while j < |apis|
      invariant j <= |apis|
      invariant ApisFrom(f, repo, apis[j..], q, max) == ApisFrom(f0, repo, apis, q, max)
    {
      if |f.apis| >= max {
        FullApisStop(f, repo, apis[j..], q, max);
        break;
      }
      var api := apis[j];
      if ContainsIgnoreCase(api.path, q) {
        f := f.(apis := f.apis + [ApiHit(repo, api.verb, api.path, api.file)]);
      }
      assert apis[j..][1..] == apis[j + 1..];
      j := j + 1;
    }
    if j == |apis| {
      assert apis[j..] == [];
    }
  }

  // ---------------------------------------------------------------------------------------------
  // The tool
  // ---------------------------------------------------------------------------------------------

  /** `AIQueryTool`: the cache directory's records (`None` for a file that cannot be decoded),
      the API catalog file if it is there and readable, and the memo of records loaded so far. */
  class AIQueryTool {
    const store: map<string, Option<RepositoryIndex>>
    const catalog: Option<ApiCatalog>
    var cache: map<string, RepositoryIndex>

    /** The memo only holds records as they are on disk. */
    predicate Valid()
      reads this
    {
      forall n :: n in cache ==> Stored(store, n) == Some(cache[n])
    }

    constructor (store: map<string, Option<RepositoryIndex>>, catalog: Option<ApiCatalog>)
      ensures Valid() && this.store == store && this.catalog == catalog && cache == map[]
    {
      this.store := store;
      this.catalog := catalog;
      cache := map[];
    }

    /** `_load_repo_cache`: the memoised record if there is one, else the record read from disk,
        remembered when it could be read. */
    method LoadRepoCache(name: string) returns (data: Option<RepositoryIndex>)
      requires Valid()
      modifies this
      ensures Valid() && data == Stored(store, name)
      ensures cache == if data.Some? then old(cache)[name := data.value] else old(cache)
    {
      if name in cache {
        data := Some(cache[name]);
        assert cache[name := data.value] == cache;
        return;
      }
      data := Stored(store, name);
      if data.Some? {
        cache := cache[name := data.value];
      }
    }

    method RepoSummary(name: string) returns (r: RepoSummary)
      requires Valid()
      modifies this
      ensures Valid() && r == SummaryOf(name, Stored(store, name))
    {
      var data := LoadRepoCache(name);
      r := SummaryOf(name, data);
    }

    method RepoDetail(name: string, section: string) returns (r: RepoDetail)
      requires Valid()
      modifies this
      ensures Valid() && r == DetailOf(name, Stored(store, name), section)
    {
      var data := LoadRepoCache(name);
      r := DetailOf(name, data, section);
    }

    /** `find_file`. */
    method FindFile(name: string, pattern: string) returns (r: FindResult)
      requires Valid()
      modifies this
      ensures Valid() && r == FindFileOf(name, Stored(store, name), pattern)
    {
      var data := LoadRepoCache(name);
      if data.None? {
        return FindNotFound(NotFoundMessage(name));
      }
      var matches := CollectMatches(data.value, pattern);
      r := FoundFiles(name, pattern, matches, |matches|);
    }

    /** `list_apis`. */
    method ListApis(repo: Option<string>) returns (r: seq<ApiEntry>)
      requires Valid()
      modifies this
      ensures Valid() && r == ListApisOf(store, catalog, repo)
    {
      if repo.Some? && repo.value != "" {
        var data := LoadRepoCache(repo.value);
        r := if data.Some? then Plain(data.value.apis) else [];
        return;
      }
      if catalog.Some? {
        return FromCatalog(catalog.value.endpoints);
      }
      r := ListAllApis();
    }

    /** The fallback of `list_apis`: every cached repository's endpoints tagged with its name. */
    method ListAllApis() returns (r: seq<ApiEntry>)
      requires Valid()
      modifies this
      ensures Valid() && r == Fallback(store, ListRepos(store))
    {
      var names := ListRepos(store);
      r := [];
      for i := 0 to |names|
        invariant Valid() && r == Fallback(store, names[..i])
      {
        FallbackStep(store, names, i);
        r := AppendRepoApis(r, names[i]);
      }
      assert names[..|names|] == names;
    }

    /** One step of the fallback: the repository's record is loaded and its endpoints appended. */
    method AppendRepoApis(prefix: seq<ApiEntry>, name: string) returns (r: seq<ApiEntry>)
      requires Valid()
      modifies this
      ensures Valid() && r == prefix + RepoApis(store, name)
    {
      var data := LoadRepoCache(name);
      if data.Some? {
        r := AppendTaggedApis(prefix, data.value.apis, name);
      } else {
        r := prefix;
        assert prefix + RepoApis(store, name) == prefix;
      }
    }

    /** `search`. */
    method Search(query: string, scope: string := "all", maxResults: int := DefaultMaxResults) returns (r: SearchResult)
      requires Valid()
      modifies this
      ensures Valid() && r == SearchOf(store, query, scope, maxResults)
    {
      var names := ListRepos(store);
      var f := NothingFound;
      for i := 0 to |names|
        invariant Valid()
        invariant ReposFrom(f, store, names[i..], query, scope, maxResults)
               == ReposFrom(NothingFound, store, names, query, scope, maxResults)
      {
        assert names[i..][1..] == names[i + 1..];
        f := SearchOne(f, names[i], query, scope, maxResults);
      }
      r := Summarize(f, query, scope, maxResults);
    }

    /** One turn of the search loop: the repository's record is loaded and searched. */
    method SearchOne(f0: Found, name: string, query: string, scope: string, maxResults: int) returns (f: Found)
      requires Valid()
      modifies this
      ensures Valid() && f == SearchStored(f0, store, name, query, scope, maxResults)
    {
      var data := LoadRepoCache(name);
      f := f0;
      if data.Some? {
        f := SearchRepo(f0, name, data.value, query, scope, maxResults);
      }
    }
  }
}
