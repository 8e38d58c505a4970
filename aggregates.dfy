/** The cross-repository indexes (`GlobalIndexer`): the per-repository results are gathered
    into a map keyed by repository name, and three views are built from it in name order — the
    global summary, the API catalog and the quick reference. */
module Aggregates {
  import opened Wrappers
  import opened Text
  import opened Seqs
  import opened Order
  import opened Patterns
  import opened Build
  import opened Files
  import opened Indexer

  // ---------------------------------------------------------------------------------------------
  // Finding and indexing repositories
  // ---------------------------------------------------------------------------------------------

  /** One item of the repositories directory: its name, whether it is a directory and whether
      it holds a `.git` entry. */
  datatype Child = Child(name: string, isDir: bool, hasGit: bool)

  /** `_find_repos`: the names of the sub-directories that are git checkouts, sorted. */
  function FindRepos(children: seq<Child>): (r: seq<string>)
    ensures StrictlySorted(r)
    ensures forall n :: n in r <==> exists c :: c in children && c.isDir && c.hasGit && c.name == n
  {
    SortedSet(set c | c in children && c.isDir && c.hasGit :: c.name)
  }

  /** The results map after the outcomes seen so far; `None` stands for an indexing run that
      failed. */
  function Results(outcomes: seq<Option<RepositoryIndex>>): map<string, RepositoryIndex> {
    if outcomes == [] then map[]
    else
      var m := Results(outcomes[..|outcomes| - 1]);
      match outcomes[|outcomes| - 1]
      case Some(data) => m[data.name := data]
      case None => m
  }

  /** A failed run is left out, every successful one is present under its own name, and each
      entry is the last successful result with that name. */
  lemma {:induction false} ResultsAreSuccesses(outcomes: seq<Option<RepositoryIndex>>)
    ensures forall n :: n in Results(outcomes) <==>
      exists k :: 0 <= k < |outcomes| && outcomes[k].Some? && outcomes[k].value.name == n
    ensures forall n :: n in Results(outcomes) ==>
      Results(outcomes)[n].name == n
      && exists k :: 0 <= k < |outcomes| && outcomes[k] == Some(Results(outcomes)[n])
  {
    if outcomes != [] {
      var init := outcomes[..|outcomes| - 1];
      ResultsAreSuccesses(init);
      forall n | n in Results(init) ensures exists k :: 0 <= k < |outcomes| && outcomes[k] == Some(Results(init)[n]) {
        var k :| 0 <= k < |init| && init[k] == Some(Results(init)[n]);
        assert outcomes[k] == init[k];
      }
      forall n | exists k :: 0 <= k < |outcomes| && outcomes[k].Some? && outcomes[k].value.name == n
        ensures n in Results(outcomes)
      {
        var k :| 0 <= k < |outcomes| && outcomes[k].Some? && outcomes[k].value.name == n;
        if k < |init| {
          assert init[k] == outcomes[k];
        }
      }
    }
  }

  /** The sequential form of `index_all`'s collection loop. */
  method CollectResults(outcomes: seq<Option<RepositoryIndex>>) returns (results: map<string, RepositoryIndex>)
    ensures results == Results(outcomes)
  {
    results := map[];
    for i := 0 to |outcomes|
      invariant results == Results(outcomes[..i])
    {
      assert outcomes[..i + 1][..i] == outcomes[..i];
      match outcomes[i] {
        case Some(data) => results := results[data.name := data];
        case None =>
      }
    }
    assert outcomes[..|outcomes|] == outcomes;
  }

  // ---------------------------------------------------------------------------------------------
  // The global index
  // ---------------------------------------------------------------------------------------------

  /** One repository's line in the global index. */
  datatype RepoLine = RepoLine(files: nat, sourceFiles: nat, apis: nat, controllers: nat, services: nat, buildType: string)

  /** `global_index.json`; `repos` in name order. */
  datatype GlobalIndex = GlobalIndex(
    totalRepos: nat, indexedAt: string, totalFiles: nat, totalSourceFiles: nat, totalApis: nat,
    repos: seq<(string, RepoLine)>)

  /** The repository names in `sorted(results.items())` order. */
  function Names(results: map<string, RepositoryIndex>): (r: seq<string>)
    ensures |r| == |results|
    ensures forall n :: n in r <==> n in results
    ensures StrictlySorted(r)
  {
    SortedSet(results.Keys)
  }

  /** A summary count over the named repositories. */
  function Total(names: seq<string>, results: map<string, RepositoryIndex>, count: Summary -> nat): nat
    requires forall n :: n in names ==> n in results
  {
    if names == [] then 0
    else Total(names[..|names| - 1], results, count) + count(results[names[|names| - 1]].summary)
  }

  function FileCount(s: Summary): nat { s.totalFiles }
  function SourceCount(s: Summary): nat { s.sourceFiles }
  function ApiCount(s: Summary): nat { s.apiEndpoints }

  function Line(data: RepositoryIndex): RepoLine {
    var s := data.summary;
    RepoLine(s.totalFiles, s.sourceFiles, s.apiEndpoints, s.controllers, s.services, data.build.kind.Name())
  }

  /** One line per named repository, in the order of the names. */
  function LinesOf(names: seq<string>, results: map<string, RepositoryIndex>): (r: seq<(string, RepoLine)>)
    requires forall n :: n in names ==> n in results
    ensures |r| == |names| && forall k :: 0 <= k < |r| ==> r[k] == (names[k], Line(results[names[k]]))
  {
    seq(|names|, k requires 0 <= k < |names| => (names[k], Line(results[names[k]])))
  }

  /** `_build_global_index`: one line per repository, in name order, holding its summary counts
      and build type; the totals are added up over all repositories. */
  function GlobalIndexOf(results: map<string, RepositoryIndex>, now: string): (r: GlobalIndex)
    ensures r.totalRepos == |results| == |r.repos|
    ensures forall k :: 0 <= k < |r.repos| ==>
      r.repos[k].0 == Names(results)[k] && r.repos[k].1 == Line(results[r.repos[k].0])
    ensures r.totalFiles == Total(Names(results), results, FileCount)
      && r.totalSourceFiles == Total(Names(results), results, SourceCount)
      && r.totalApis == Total(Names(results), results, ApiCount)
  {
    var names := Names(results);
    GlobalIndex(
      |results|, now,
      Total(names, results, FileCount),
      Total(names, results, SourceCount),
      Total(names, results, ApiCount),
      LinesOf(names, results))
  }

  /** A count added up over the lines of the global index. */
  function LineSum(lines: seq<(string, RepoLine)>, count: RepoLine -> nat): nat {
    if lines == [] then 0 else LineSum(lines[..|lines| - 1], count) + count(lines[|lines| - 1].1)
  }

  function LineFiles(l: RepoLine): nat { l.files }
  function LineSources(l: RepoLine): nat { l.sourceFiles }
  function LineApis(l: RepoLine): nat { l.apis }

  /** The global index lists every indexed repository exactly once, in strictly ascending name
      order. */
  lemma GlobalIndexOrder(results: map<string, RepositoryIndex>, now: string)
    ensures var g := GlobalIndexOf(results, now);
      (forall n :: n in results <==> exists k :: 0 <= k < |g.repos| && g.repos[k].0 == n)
      && forall i, j :: 0 <= i < j < |g.repos| ==> Less(g.repos[i].0, g.repos[j].0)
  {
    var g := GlobalIndexOf(results, now);
    var names := Names(results);
    assert forall k :: 0 <= k < |g.repos| ==> g.repos[k].0 == names[k];
    forall n | n in results ensures exists k :: 0 <= k < |g.repos| && g.repos[k].0 == n {
      var k :| 0 <= k < |names| && names[k] == n;
      assert g.repos[k].0 == n;
    }
  }

  /** The totals of the global index are the sums of the counts on its lines. */
  lemma GlobalTotalsAreLineSums(results: map<string, RepositoryIndex>, now: string)
    ensures var g := GlobalIndexOf(results, now);
      g.totalFiles == LineSum(g.repos, LineFiles)
      && g.totalSourceFiles == LineSum(g.repos, LineSources)
      && g.totalApis == LineSum(g.repos, LineApis)
  {
    var names := Names(results);
    TotalIsLineSum(names, results, FileCount, LineFiles);
    TotalIsLineSum(names, results, SourceCount, LineSources);
    TotalIsLineSum(names, results, ApiCount, LineApis);
  }

  /** Adding up a summary count over the names is adding up the matching count of their lines. */
  lemma {:induction false} TotalIsLineSum(names: seq<string>, results: map<string, RepositoryIndex>,
                                          count: Summary -> nat, lineCount: RepoLine -> nat)
    requires forall n :: n in names ==> n in results && lineCount(Line(results[n])) == count(results[n].summary)
    ensures Total(names, results, count) == LineSum(LinesOf(names, results), lineCount)
  {
    if names != [] {
      var init := names[..|names| - 1];
      TotalIsLineSum(init, results, count, lineCount);
      assert LinesOf(names, results)[..|names| - 1] == LinesOf(init, results);
    }
  }

  // ---------------------------------------------------------------------------------------------
  // The API catalog
  // ---------------------------------------------------------------------------------------------

  /** An endpoint of the catalog: the repository's endpoint with the owning repository added. */
  datatype CatalogEntry = CatalogEntry(verb: string, path: string, file: string, repo: string)

  datatype ApiCatalog = ApiCatalog(totalApis: nat, indexedAt: string, endpoints: seq<CatalogEntry>)

  function Tag(eps: seq<Endpoint>, repo: string): (r: seq<CatalogEntry>)
    ensures |r| == |eps|
    ensures forall k :: 0 <= k < |r| ==> r[k] == CatalogEntry(eps[k].verb, eps[k].path, eps[k].file, repo)
  {
    seq(|eps|, k requires 0 <= k < |eps| => CatalogEntry(eps[k].verb, eps[k].path, eps[k].file, repo))
  }

  lemma TagSnoc(eps: seq<Endpoint>, repo: string)
    requires eps != []
    ensures Tag(eps, repo) == Tag(eps[..|eps| - 1], repo) + [Tag(eps, repo)[|eps| - 1]]
  {
  }

  /** The endpoints of the named repositories, tagged, repository after repository. */
  function Catalog(names: seq<string>, results: map<string, RepositoryIndex>): seq<CatalogEntry>
    requires forall n :: n in names ==> n in results
  {
    if names == [] then []
    else
      var last := names[|names| - 1];
      Catalog(names[..|names| - 1], results) + Tag(results[last].apis, last)
  }

  /** `_build_apis_index`: a loop over the repositories in name order and over each one's
      endpoints. */
  method BuildApisIndex(results: map<string, RepositoryIndex>, now: string) returns (c: ApiCatalog)
    ensures c.endpoints == Catalog(Names(results), results)
    ensures c.totalApis == |c.endpoints|
  {
    var names := Names(results);
    var all: seq<CatalogEntry> := [];
    for i := 0 to |names|
      invariant all == Catalog(names[..i], results)
    {
      CatalogStep(names, results, i);
      all := AppendTagged(all, results[names[i]].apis, names[i]);
    }
    assert names[..|names|] == names;
    c := ApiCatalog(|all|, now, all);
  }

  lemma CatalogStep(names: seq<string>, results: map<string, RepositoryIndex>, i: nat)
    requires (forall n :: n in names ==> n in results) && i < |names|
    ensures names[i] in results && forall n :: n in names[..i + 1] ==> n in results
    ensures Catalog(names[..i + 1], results) == Catalog(names[..i], results) + Tag(results[names[i]].apis, names[i])
  {
    assert names[..i + 1][..i] == names[..i];
  }

  /** The inner loop: each endpoint of one repository appended with the repository's name. */
  method AppendTagged(prefix: seq<CatalogEntry>, eps: seq<Endpoint>, repo: string) returns (all: seq<CatalogEntry>)
    ensures all == prefix + Tag(eps, repo)
  {
    all := prefix;
    for j := 0 to |eps|
      invariant all == prefix + Tag(eps[..j], repo)
    {
      TagSnoc(eps[..j + 1], repo);
      assert eps[..j + 1][..j] == eps[..j];
      all := all + [CatalogEntry(eps[j].verb, eps[j].path, eps[j].file, repo)];
    }
    assert eps[..|eps|] == eps;
  }

  /** A repository record whose endpoint count is the length of its endpoint list, as
      `RepoIndexer.index` produces it. */
  predicate Consistent(data: RepositoryIndex) {
    data.summary.apiEndpoints == |data.apis|
  }

  /** For consistent records the catalog has exactly as many endpoints as the global index
      counts. */
  lemma {:induction false} CatalogLength(names: seq<string>, results: map<string, RepositoryIndex>)
    requires forall n :: n in names ==> n in results && Consistent(results[n])
    ensures |Catalog(names, results)| == Total(names, results, ApiCount)
  {
    if names != [] {
      CatalogLength(names[..|names| - 1], results);
    }
  }

  /** Every catalog entry is an endpoint of the repository it names, and that repository is
      one of those listed. */
  lemma {:induction false} CatalogEntriesAreTagged(names: seq<string>, results: map<string, RepositoryIndex>)
    requires forall n :: n in names ==> n in results
    ensures forall e :: e in Catalog(names, results) ==>
      e.repo in names && Endpoint(e.verb, e.path, e.file) in results[e.repo].apis
  {
    if names != [] {
      var init := names[..|names| - 1];
      var last := names[|names| - 1];
      CatalogEntriesAreTagged(init, results);
      forall e | e in Catalog(names, results)
        ensures e.repo in names && Endpoint(e.verb, e.path, e.file) in results[e.repo].apis
      {
        if e in Catalog(init, results) {
          assert e.repo in init;
        } else {
          var eps := results[last].apis;
          var k :| 0 <= k < |Tag(eps, last)| && Tag(eps, last)[k] == e;
          assert Endpoint(e.verb, e.path, e.file) == eps[k];
        }
      }
    }
  }

  /** With the names sorted, the catalog lists the repositories in name order. */
  lemma {:induction false} CatalogInNameOrder(names: seq<string>, results: map<string, RepositoryIndex>)
    requires forall n :: n in names ==> n in results
    requires StrictlySorted(names)
    ensures forall i, j :: 0 <= i < j < |Catalog(names, results)| ==>
      LessEq(Catalog(names, results)[i].repo, Catalog(names, results)[j].repo)
  {
    if names != [] {
      var init := names[..|names| - 1];
      var last := names[|names| - 1];
      CatalogInNameOrder(init, results);
      CatalogEntriesAreTagged(init, results);
      var c := Catalog(names, results);
      var front := Catalog(init, results);
      var tagged := Tag(results[last].apis, last);
      assert c == front + tagged;
      forall i, j | 0 <= i < j < |c| ensures LessEq(c[i].repo, c[j].repo) {
        if j < |front| {
          assert c[i] == front[i] && c[j] == front[j];
          assert LessEq(front[i].repo, front[j].repo);
        } else {
          assert c[j] == tagged[j - |front|];
          if i < |front| {
            assert c[i] == front[i];
            assert c[i] in front;
            var a :| 0 <= a < |init| && init[a] == c[i].repo;
            assert names[a] == c[i].repo && Less(names[a], names[|names| - 1]);
            assert LessEq(c[i].repo, c[j].repo);
          } else {
            assert c[i] == tagged[i - |front|];
            assert LessEq(c[i].repo, c[j].repo);
          }
        }
      }
    }
  }

  /** The catalog's total agrees with the global index's `total_apis` when every record is
      consistent. */
  lemma CatalogMatchesGlobalTotal(results: map<string, RepositoryIndex>, now: string)
    requires forall n :: n in results ==> Consistent(results[n])
    ensures |Catalog(Names(results), results)| == GlobalIndexOf(results, now).totalApis
  {
    CatalogLength(Names(results), results);
  }

  /** Every record `RepoIndexer.index` produces is consistent. */
  lemma IndexIsConsistent(cfg: IndexConfig, md5: string -> string, decode: string -> PackageDecode,
                          name: string, path: string, now: string, entries: seq<FsEntry>)
    ensures IndexOf(cfg, md5, decode, name, path, now, entries).Some? ==>
      Consistent(IndexOf(cfg, md5, decode, name, path, now, entries).value)
  {
    SummaryMatchesLists(cfg, md5, decode, name, path, now, entries);
  }

  /** A failed run is in none of the views: when every successful run is named after its
      repository, a repository whose run gives `None` has no result. */
  lemma FailedRunExcluded(repos: seq<string>, index: string -> Option<RepositoryIndex>, n: string)
    requires index(n).None?
    requires forall m :: m in repos && index(m).Some? ==> index(m).value.name == m
    ensures n !in Results(Outcomes(repos, index))
  {
    ResultsAreSuccesses(Outcomes(repos, index));
  }

  /** A repository whose `package.json` is JSON of the wrong shape makes `RepoIndexer.index`
      raise, so `index_repo` gives `None` and the repository has no result. */
  lemma WrongShapePackageExcluded(cfg: IndexConfig, md5: string -> string, decode: string -> PackageDecode,
                                  now: string, paths: string -> string, checkouts: string -> seq<FsEntry>,
                                  repos: seq<string>, n: string)
    requires NpmFails(checkouts(n), decode)
    ensures n !in Results(Outcomes(repos, m => IndexOf(cfg, md5, decode, m, paths(m), now, checkouts(m))))
  {
    FailedRunExcluded(repos, m => IndexOf(cfg, md5, decode, m, paths(m), now, checkouts(m)), n);
  }

  // ---------------------------------------------------------------------------------------------
  // The quick reference
  // ---------------------------------------------------------------------------------------------

  const ExcerptChars := 500

  datatype QuickRefEntry = QuickRefEntry(summary: Summary, buildType: string, readmeExcerpt: string)

  datatype QuickRef = QuickRef(totalRepos: nat, indexedAt: string, repos: seq<(string, QuickRefEntry)>)

  /** The start of the README, empty when there is none. */
  function Excerpt(readme: Option<string>): (r: string)
    ensures |r| <= ExcerptChars && StartsWith(readme.GetOr(""), r)
    ensures |readme.GetOr("")| <= ExcerptChars ==> r == readme.GetOr("")
  {
    Take(readme.GetOr(""), ExcerptChars)
  }

  /** `_build_quick_ref`: one entry per repository, in name order, holding its summary, its
      build type and the first 500 characters of its README. */
  function QuickRefOf(results: map<string, RepositoryIndex>, now: string): (r: QuickRef)
    ensures r.totalRepos == |results| == |r.repos|
    ensures forall k :: 0 <= k < |r.repos| ==>
      var (name, entry) := r.repos[k];
      name == Names(results)[k] && name in results
      && entry.summary == results[name].summary && entry.buildType == results[name].build.kind.Name()
      && entry.readmeExcerpt == Excerpt(results[name].readme)
      && |entry.readmeExcerpt| <= ExcerptChars && StartsWith(results[name].readme.GetOr(""), entry.readmeExcerpt)
  {
    var names := Names(results);
    var refs := seq(|names|, k requires 0 <= k < |names| =>
      (names[k], QuickRefEntry(results[names[k]].summary, results[names[k]].build.kind.Name(),
                               Excerpt(results[names[k]].readme))));
    QuickRef(|refs|, now, refs)
  }

  /** The quick reference and the global index list the same repositories in the same order,
      with the same build types. */
  lemma QuickRefMatchesGlobal(results: map<string, RepositoryIndex>, now: string)
    ensures var q := QuickRefOf(results, now); var g := GlobalIndexOf(results, now);
      |q.repos| == |g.repos|
      && forall k :: 0 <= k < |q.repos| ==> q.repos[k].0 == g.repos[k].0 && q.repos[k].1.buildType == g.repos[k].1.buildType
  {
  }

  // ---------------------------------------------------------------------------------------------
  // index_all
  // ---------------------------------------------------------------------------------------------

  /** What `index_all` produces: nothing when there is no repository to index, else the
      three indexes it writes. */
  datatype IndexAllResult =
    | NoRepositories
    | Indexed(global: GlobalIndex, apis: ApiCatalog, quickRef: QuickRef)

  /** The result of indexing each repository in turn. */
  function Outcomes(repos: seq<string>, index: string -> Option<RepositoryIndex>): (r: seq<Option<RepositoryIndex>>)
    ensures |r| == |repos| && forall k :: 0 <= k < |r| ==> r[k] == index(repos[k])
  {
    seq(|repos|, k requires 0 <= k < |repos| => index(repos[k]))
  }

  /** `index_all`, run one repository after the other; `index` stands for `index_repo`, whose
      `None` is a failed run. */
  method IndexAll(children: seq<Child>, index: string -> Option<RepositoryIndex>, now: string)
    returns (r: IndexAllResult)
    ensures r.NoRepositories? <==> FindRepos(children) == []
    ensures r.Indexed? ==>
      var results := Results(Outcomes(FindRepos(children), index));
      r.global == GlobalIndexOf(results, now)
      && r.apis.endpoints == Catalog(Names(results), results) && r.apis.totalApis == |r.apis.endpoints|
      && r.quickRef == QuickRefOf(results, now)
  {
    var repos := FindRepos(children);
    if repos == [] {
      return NoRepositories;
    }
    var outcomes := Outcomes(repos, index);
    var results := CollectResults(outcomes);
    var apis := BuildApisIndex(results, now);
    r := Indexed(GlobalIndexOf(results, now), apis, QuickRefOf(results, now));
  }
}
