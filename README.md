# doug: indexing, chunking, querying and repository configuration, in Dafny

doug keeps a local cache of many Git repositories and answers questions about them. This
project models the parts of doug that compute:

- **The repository indexer** (`doug/indexer.py`).
  - `RepoIndexer.index` walks a checkout and analyses every file: size, line count, hash,
    role, package, primary type and HTTP routes. It buckets the records by role, grows a
    directory tree, detects the build system and its dependencies, and reads the README.
  - `GlobalIndexer` indexes every checkout. It builds three cross-repository views in name
    order: the global summary, the API catalog and the quick reference.
- **The code chunker** (`CodeChunker` in `doug/rag/rag_engine.py`). It cuts a source file at
  the lines that open a declaration. Files without such structure, and segments that are too
  long, go through a sliding window.
- **The chunk builders** (`doug/rag/indexers.py`): Markdown documents split at headings, one
  chunk per API endpoint, and one dependency summary chunk.
- **The query layer** (`AIQueryTool` in `doug/ai_query.py`): listing, summary, section detail,
  file search, API listing, the cross-repository search and its excerpts.
- **The repository configuration** (`doug/cache_manager.py`):
  - repository names made from Git URLs;
  - the loading of the `*.txt` repository lists;
  - `add_repo`, which appends a line to `repos.txt`;
  - `remove_repo`, which rewrites `repos.txt`.

The file system is modelled as a value:
- a checkout is a sequence of entries, in walk order;
- the repository-list directory is a map from file name to contents, with `None` for an
  unreadable file;
- the cache directory is a map from repository name to its decoded record.

`json.loads`, MD5 and the clock are parameters of the operations that use them.

The modules follow the program:

| module | file | models |
|---|---|---|
| `Text`, `Seqs`, `Order`, `Wrappers` | text.dfy, seqs.dfy, order.dfy, wrappers.dfy | the Python string and list built-ins the core relies on (`strip`, `split`, slicing, `sorted`) |
| `Matchers` | matchers.dfy | the regular expressions of the indexer, as explicit scanners |
| `Patterns` | patterns.dfy | file classification, route extraction, package and primary type |
| `Build` | build.dfy | build-system detection and dependency lists |
| `Files` | files.dfy | lookups of root items of a checkout |
| `Indexer` | indexer.dfy | `RepoIndexer` |
| `Aggregates` | aggregates.dfy | `GlobalIndexer` |
| `Windowing`, `Chunking`, `ChunkProperties` | windowing.dfy, chunking.dfy, chunk_props.dfy | `CodeChunker` |
| `RagIndexers` | rag_indexers.dfy | `DocumentationIndexer`, `APIIndexer`, `DependencyIndexer` |
| `Query` | query.dfy | `AIQueryTool` |
| `RepoNames`, `RepoConfig` | repo_names.dfy, repo_config.dfy | `_extract_repo_name` and `CacheManager` |

Where doug updates state in place, the model is imperative:
- `CodeChunker`, `DocumentationIndexer`, `AIQueryTool` and `CacheManager` are classes.
- Each loop of the source is a method with its invariants (the indexing loop, the chunking
  loops, the search loop, the loading and rewriting loops). Each such method is proved equal
  to a specification function, and the properties are proved about that function.

## Model

| member | source | states |
|---|---|---|
| `Patterns.Suffix` | doug/indexer.py:130 | the extension is empty or a dot-led tail of the name that is shorter than the name |
| `Patterns.Stem` | doug/indexer.py:99 | the stem followed by the extension gives back the file name |
| `Patterns.ClassifyGivesFirstMatch` | doug/indexer.py:96-124 | a file gets a role exactly when the rule for that role matches and no earlier rule does, with the rules in the source's order: test name or `/test` path, then the controller, service, repository and model names, then the content annotations |
| `Patterns.ClassifyNoneIffNoRule` | doug/indexer.py:96-124 | a file has no role exactly when none of the name, path or annotation rules match |
| `Patterns.ClassifyIsFirstMatch` | doug/indexer.py:96-124 | both directions at once: the first matching rule decides the role, and no role means no rule matched |
| `Patterns.ClassPath` | doug/indexer.py:134-140 | the class-level path never ends with `/` |
| `Patterns.JoinPathClean` | doug/indexer.py:145 | joining a clean class path and a clean route path puts exactly one `/` between them |
| `Patterns.ReplaceAfterCleanPrefix` | doug/indexer.py:145 | replacing `//` after a prefix that is clean and does not end in `/` leaves that prefix untouched |
| `Patterns.SlashBeforeCleanPath` | doug/indexer.py:145 | `"/" + path` with `//` replaced is the path when it starts with `/`, otherwise `/` plus the path |
| `Patterns.JoinPathExamples` | doug/indexer.py:145 | `/api/v1` + `/users` gives `/api/v1/users`; an empty class path gives `/users`; `/api` + `users` gives `/api/users` |
| `Patterns.GoVerb` | doug/indexer.py:187-193 | the verb is the first of POST, PUT, DELETE, PATCH found in the upper-cased line, and GET exactly when none is found |
| `Patterns.SpringMethodRule` | doug/indexer.py:142-146 | each `@XxxMapping` match gives exactly one endpoint, and it names the file |
| `Patterns.SpringGenericRule` | doug/indexer.py:148-153 | every endpoint of an `@RequestMapping` match names the file |
| `Patterns.SpringGenericEndpoint` | doug/indexer.py:148-153 | a match whose path equals the class path gives nothing; any other match gives one endpoint: its verb upper-cased (GET when absent) and its path joined to the class path |
| `Patterns.VerbRule` | doug/indexer.py:155-159 | each Express or FastAPI match gives one endpoint naming the file |
| `Patterns.FlaskRule` | doug/indexer.py:161-177 | every endpoint of a Flask match names the file |
| `Patterns.FlaskEndpoints` | doug/indexer.py:162-177 | a `route` match gives one endpoint per listed method (found from the match start on), or GET when no list follows; a verb match gives that verb; every endpoint has the matched path and the file |
| `Patterns.ListedMethods` | doug/indexer.py:168-171 | one method per comma-separated piece of the list |
| `Patterns.MethodNamesAt` | doug/indexer.py:168-171 | the k-th method name is the k-th comma-separated piece, stripped of white space, then of quotes, and upper-cased |
| `Patterns.MethodNamesUpper` | doug/indexer.py:168-173 | no method name holds a lower-case letter, and none starts or ends with a quote |
| `Patterns.UpperUnquoted` | doug/indexer.py:169 | a piece stripped of quotes and upper-cased holds no lower-case letter and neither starts nor ends with a quote |
| `Patterns.EndpointsFor` | doug/indexer.py:172-173 | the k-th endpoint has the k-th method, the path and the file |
| `Patterns.Clamp` | doug/indexer.py:166 | a slice start clipped to the text, unchanged when inside it |
| `Patterns.GoRule` | doug/indexer.py:184-194 | each Go route match gives exactly one endpoint naming the file |
| `Patterns.GoEndpoint` | doug/indexer.py:185-194 | one endpoint per Go match, in the file |
| `Patterns.CollectNamesFile` | doug/indexer.py:127-196 | every endpoint collected with a rule that names the file names the file |
| `Patterns.CollectOnePerMatch` | doug/indexer.py:127-196 | a one-endpoint-per-match rule gives as many endpoints as there are matches |
| `Patterns.OtherExtensionsHaveNoEndpoints` | doug/indexer.py:133-196 | a file whose extension is none of `.java .kt .js .ts .mjs .py .go` has no endpoints |
| `Patterns.EndpointsNameTheirFile` | doug/indexer.py:146 | every endpoint found in a file records that file |
| `Patterns.OneEndpointPerGoCall` | doug/indexer.py:184-194 | a Go file has exactly one endpoint per route call |
| `Patterns.OneEndpointPerExpressCall` | doug/indexer.py:155-159 | a JavaScript file has exactly one endpoint per `app`/`router` verb call |
| `Patterns.ExtractEndpoints` | doug/indexer.py:127-196 | the dispatching loop returns the endpoints the specification gives for the extension |
| `Patterns.ExtractSpring` | doug/indexer.py:133-153 | the two Spring loops append the method-mapping endpoints, then the generic ones |
| `Patterns.ExtractPython` | doug/indexer.py:161-182 | the Flask loop, then the FastAPI loop |
| `Patterns.AppendMatches` | doug/indexer.py:142-146 | a loop over matches appends exactly each match's endpoints, in order |
| `Patterns.Package` | doug/indexer.py:479-486 | a package only for `.java`, `.kt` and `.go`; it is non-empty, made of word characters and dots, and of word characters only for Go |
| `Patterns.PrimaryClass` | doug/indexer.py:488-507 | a primary type only for `.java .kt .py .ts .js .go`, and it is a non-empty word |
| `Matchers.RunEnd` | doug/indexer.py:28 | the end of the longest run of matching characters from `i` |
| `Matchers.QuotedAt` | doug/indexer.py:28 | a quoted literal `["']([^"']+)["']` at `i` is found exactly when one exists there, and its text is what lies between the quotes |
| `Matchers.ArgAt` | doug/indexer.py:33 | an argument match ends inside the text, past its quotes |
| `Matchers.CallAt` | doug/indexer.py:32-63 | a call pattern match starts at `i` and ends inside the text |
| `Matchers.DeclarationAt` | doug/indexer.py:481-505 | a keyword-and-name match starts at `i`, and its captured name is non-empty and made of name characters |
| `Matchers.TokensAt` | doug/indexer.py:69-88 | a classification alternation matches at `i` exactly when one of its tokens does |
| `Matchers.MatchAt` | doug/indexer.py:27-88 | every matcher's match starts at `i` and ends inside the text |
| `Matchers.RequestMappingAt` | doug/indexer.py:36-39 | an `@RequestMapping` match starts at `i` and ends inside the text |
| `Matchers.MethodsListAt` | doug/indexer.py:50-53 | a `methods=[...]` match starts at `i` and ends inside the text |
| `Matchers.CoordinatesAt` | doug/indexer.py:225-228 | a Maven coordinate match starts at `i` and ends inside the text |
| `Matchers.RequireAt` | doug/indexer.py:274 | a go.mod requirement match starts at `i` and ends inside the text |
| `Matchers.SearchFrom` | doug/indexer.py:135-138 | `re.search` from `i`: the match found is the leftmost one, and no match means none at any later position |
| `Matchers.FindAll` | doug/indexer.py:142 | `finditer`: matches in increasing, non-overlapping order, inside the text |
| `Matchers.FindAllStartsWithSearch` | doug/indexer.py:135-142 | `finditer` is empty exactly when `search` finds nothing, and otherwise starts with `search`'s match |
| `Matchers.QuotedSearchFinds` | doug/indexer.py:135-140 | if a quoted literal occurs anywhere, the search finds one at or before it |
| `Build.GradleDependencies` | doug/indexer.py:203-218 | the k-th dependency is the name of the k-th Gradle dependency declaration, with no version and scope `compile`, for the first 50 declarations |
| `Build.MavenDependencies` | doug/indexer.py:220-234 | the k-th dependency is `group:artifact` of the k-th `<groupId>`/`<artifactId>` pair, with no version and scope `compile`, for the first 50 pairs |
| `Build.NpmDependencies` | doug/indexer.py:236-248 | the runtime dependencies in order, then the dev dependencies, each with its name, its version and the scope `dependencies` or `devDependencies`, cut at 100 |
| `Build.GoDependencies` | doug/indexer.py:269-280 | the k-th dependency is the path and version of the k-th `path vX` requirement, with scope `runtime`, for the first 50 requirements |
| `Build.GoDependencyLines` | doug/indexer.py:269-280 | every Go dependency is the path and version of a `path vX` line at the start of a line, both non-empty and free of white space |
| `Build.ParseRequirements` | doug/indexer.py:254-264 | the loop over the lines returns the requirements the specification reads from them |
| `Build.RequirementNameWellFormed` | doug/indexer.py:258-261 | a requirement name is non-empty, starts with neither `#` nor `-`, and holds no specifier character |
| `Build.RequirementsWellFormed` | doug/indexer.py:257-264 | at most one dependency per line, each well formed and with scope `runtime` |
| `Build.NpmFromText` | doug/indexer.py:236-248 | an unreadable or non-JSON `package.json` gives no dependencies, a decoded one its capped npm list, and JSON of the wrong shape (not an object, or a dependency value that is not an object) is a failure, since only `JSONDecodeError` and `OSError` are caught |
| `Build.DetectBuild` | doug/indexer.py:199-287 | the detection fails exactly when `package.json` decides the type, reads, and is JSON of the wrong shape; otherwise the build type is the one the manifests decide |
| `Build.UnknownIffNoManifest` | doug/indexer.py:287 | the type is `unknown` exactly when no manifest exists |
| `Build.FirstManifestDecides` | doug/indexer.py:203-285 | the first manifest that exists decides the type |
| `Build.BuildIsFirstManifest` | doug/indexer.py:199-287 | both halves: `unknown` iff no manifest, otherwise the first manifest present decides |
| `Build.DependencyCaps` | doug/indexer.py:199-287 | when the detection succeeds, gradle, maven and go lists hold at most 50, npm at most 100, cargo and unknown none; pip has dependencies only through `requirements.txt` when neither `pyproject.toml` nor `setup.py` exists |
| `Files.FindRoot` | doug/indexer.py:204-205 | a root item is found exactly when an entry has that one-part path |
| `Files.ReadRoot` | doug/indexer.py:512-514 | a root item can be read only when it exists |
| `Indexer.WalkKeepsExactly` | doug/indexer.py:388-416 | the walk keeps exactly the files within the depth limit, outside the skipped directories and within the size limit |
| `Indexer.WalkFiles` | doug/indexer.py:388-416 | the walking loop returns the walk, which is exactly the entries that pass every filter |
| `Indexer.AnalyzeFile` | doug/indexer.py:418-477 | a record exists exactly when the size is known and, for source and configuration files, the text can be read; it has the path, name, extension and size; the line count (newlines plus one) and the hash exactly for source and configuration files; role, package, type and routes only for source files; every route names the path |
| `Indexer.InsertAppends` | doug/indexer.py:324-332 | inserting a file appends its name to its directory's list and creates every directory on its path |
| `Indexer.InsertLeavesOthers` | doug/indexer.py:324-332 | inserting a file changes no other directory's file list |
| `Indexer.EmptyHasOnlyRoot` | doug/indexer.py:314 | the initial tree has no files |
| `Indexer.Truncate` | doug/indexer.py:515-517 | a README within the limit is kept whole; a longer one is cut to the limit and marked as truncated |
| `Indexer.NoneReadable` | doug/indexer.py:509-521 | no README exactly when none of the candidates can be read |
| `Indexer.FirstReadableAt` | doug/indexer.py:509-521 | the README read is the first readable candidate, and every earlier one is unreadable |
| `Indexer.ReadmeIsFirstReadable` | doug/indexer.py:509-521 | both halves for the five names in the source's order |
| `Indexer.Records` | doug/indexer.py:316-321 | at most one record per walked file, each naming its own path in its routes |
| `Indexer.IndexOf` | doug/indexer.py:300-386 | no record exactly when build detection raises on a wrongly shaped `package.json`; otherwise a record named after the repository with the build type the manifests decide |
| `Indexer.Index` | doug/indexer.py:300-386 | the single indexing loop returns the index the specification builds from the walked files, or none when build detection raises |
| `Indexer.CollectStep` | doug/indexer.py:316-321 | one turn of the loop adds the file's record when it has one, and otherwise changes nothing |
| `Indexer.AddFile` | doug/indexer.py:321-356 | one record appended to the record list, the tree and the right buckets |
| `Indexer.AddRecordFields` | doug/indexer.py:321-356 | each bucket after one record: all records and the tree always; sources and routes for a source file; the role's bucket for a source file with that role; configurations for a non-source configuration file |
| `Indexer.ViewsSnoc` | doug/indexer.py:336-356 | each view of a record list grows by the new record exactly when it belongs to the view |
| `Indexer.AddRecordKeepsViews` | doug/indexer.py:336-356 | one record keeps every bucket equal to its view of the record list |
| `Indexer.FoldIsViews` | doug/indexer.py:316-356 | after the loop, sources are the source-extension records, each role bucket holds the sources with that role, configurations are the other configuration-extension records, and the routes are the sources' routes |
| `Indexer.FoldKeepsAll` | doug/indexer.py:321 | every analysed record is kept |
| `Indexer.RolesPartitionSources` | doug/indexer.py:340-350 | the role buckets together hold no more than the source records |
| `Indexer.ExtensionsPartitionRecords` | doug/indexer.py:336-356 | source and configuration records together are no more than all records |
| `Indexer.SummaryMatchesLists` | doug/indexer.py:365-381 | for every record built, the summary counts are the lengths of the lists written beside them; the roles add up to at most the sources, and sources plus configurations to at most all files, which are at most the walked entries |
| `Indexer.WithRoleHasRole` | doug/indexer.py:340-350 | every record the role filter keeps has that role |
| `Indexer.IndexSlimLists` | doug/indexer.py:336-381 | for every record built, the services, models and controllers lists are the slim forms of exactly the source records with that role, in walk order, each carrying that role; the configs list is the slim forms of the configuration records that are not source files |
| `Indexer.AddRecordRoutes` | doug/indexer.py:352-353 | one record keeps every route tied to a source record with the same path |
| `Indexer.RoutesComeFromSources` | doug/indexer.py:352-353 | every route in the index comes from a source record whose path it names |
| `Aggregates.FindRepos` | doug/indexer.py:595-602 | the sorted names of exactly the sub-directories that hold `.git` |
| `Aggregates.ResultsAreSuccesses` | doug/indexer.py:562-570 | the results hold exactly the successful runs, keyed by their own names, each one an actual result |
| `Aggregates.CollectResults` | doug/indexer.py:562-570 | the collecting loop returns the results map of the runs |
| `Aggregates.Names` | doug/indexer.py:610 | the result names, strictly sorted, each once |
| `Aggregates.GlobalIndexOf` | doug/indexer.py:603-626 | the repository total is the number of results; one line per repository in name order, carrying its counts and build type; the file, source and API totals add up every repository's summary |
| `Aggregates.GlobalIndexOrder` | doug/indexer.py:607-616 | a repository has a line exactly when it was indexed, and the lines are in strictly increasing name order |
| `Aggregates.GlobalTotalsAreLineSums` | doug/indexer.py:603-606 | the file, source and API totals are the sums of the per-repository lines |
| `Aggregates.TotalIsLineSum` | doug/indexer.py:603-616 | a total over the summaries is the sum of the same count over the lines built from them |
| `Aggregates.BuildApisIndex` | doug/indexer.py:629-641 | the catalog loop returns every repository's endpoints, tagged, in name order, with the total as its length |
| `Aggregates.CatalogStep` | doug/indexer.py:631-635 | one repository of the catalog loop appends its tagged endpoints |
| `Aggregates.AppendTagged` | doug/indexer.py:632-635 | the inner loop appends the tagged endpoints |
| `Aggregates.CatalogLength` | doug/indexer.py:607-638 | the catalog is as long as the sum of the endpoint counts |
| `Aggregates.CatalogEntriesAreTagged` | doug/indexer.py:632-635 | every catalog entry is an endpoint of the repository it names |
| `Aggregates.CatalogInNameOrder` | doug/indexer.py:631 | catalog entries appear in repository-name order |
| `Aggregates.CatalogMatchesGlobalTotal` | doug/indexer.py:607-638 | for consistent records, the API catalog's length equals the global index's API total |
| `Aggregates.IndexIsConsistent` | doug/indexer.py:374-377 | every record the indexer builds counts exactly its endpoints |
| `Aggregates.FailedRunExcluded` | doug/indexer.py:562-593 | a repository whose run gives no record has no result, when successful runs are named after their repositories |
| `Aggregates.WrongShapePackageExcluded` | doug/indexer.py:236-248 | a repository whose `package.json` is JSON of the wrong shape has no result, so it is in none of the three views |
| `Aggregates.Excerpt` | doug/indexer.py:649 | at most 500 characters from the start of the README, all of it when shorter, empty without one |
| `Aggregates.QuickRefOf` | doug/indexer.py:641-654 | one entry per repository in name order, with its summary, its build type and the first 500 characters of its README (empty when it has none) |
| `Aggregates.QuickRefMatchesGlobal` | doug/indexer.py:607-648 | the quick reference lists the same repositories, with the same build types, in the same order as the global index |
| `Aggregates.IndexAll` | doug/indexer.py:544-580 | nothing when there is no repository; otherwise the three views built from the successful results |
| `Windowing.WindowText` | doug/rag/rag_engine.py:168-169 | a window's text holds at most the chunk size |
| `Windowing.WindowTextIsStrip` | doug/rag/rag_engine.py:169 | the window text is exactly `text[pos:pos+size].strip()` |
| `Windowing.WindowChunkIs` | doug/rag/rag_engine.py:171-187 | a position gives one chunk exactly when its stripped window is not blank |
| `Windowing.WindowChunkIds` | doug/rag/rag_engine.py:176 | every window chunk is numbered, and the number belongs to this pass |
| `Windowing.WindowChunkSound` | doug/rag/rag_engine.py:165-190 | every chunk of the pass is the stripped window at its own start, with the line numbers the source computes |
| `Windowing.WindowChunksComplete` | doug/rag/rag_engine.py:165-190 | every start position whose window is not blank gives a chunk with that position's number |
| `Windowing.WindowIdsIncrease` | doug/rag/rag_engine.py:176-190 | window numbers strictly increase along the pass |
| `Windowing.NonBlankWindow` | doug/rag/rag_engine.py:169-171 | a window that covers a non-space character is not blank |
| `Windowing.CoveringWindow` | doug/rag/rag_engine.py:189 | with a step no larger than the size, every position lies inside some window |
| `Windowing.WindowsFindNonBlank` | doug/rag/rag_engine.py:165-190 | text with a non-space character gives at least one window chunk |
| `Chunking.AfterKeyword` | doug/rag/rag_engine.py:104-107 | `kw\s+` matches only when at least one space follows the keyword |
| `Chunking.SkipOptional` | doug/rag/rag_engine.py:105-106 | an optional prefix stays inside the line |
| `Chunking.OpensMeans` | doug/rag/rag_engine.py:111-116 | the i-th flag holds exactly when the i-th line opens a declaration |
| `Chunking.BoundariesShape` | doug/rag/rag_engine.py:110-116 | the boundaries start with line 0, strictly increase, and contain exactly the later lines that open a declaration |
| `Chunking.CutsOfBoundaries` | doug/rag/rag_engine.py:118-121 | with two or more boundaries, adding the line count gives increasing cut points |
| `Chunking.FindBoundaries` | doug/rag/rag_engine.py:110-116 | the boundary loop returns the specification's boundaries |
| `Chunking.BoundaryStep` | doug/rag/rag_engine.py:114-115 | one line adds its index exactly when it opens a declaration, is not the first line, and is not already present |
| `Chunking.ChunkSegments` | doug/rag/rag_engine.py:123-150 | the segment loop returns the chunks of every segment, in order |
| `Chunking.SegmentAt` | doug/rag/rag_engine.py:124-150 | one segment: nothing when short, the sliding window when longer than three chunk sizes, else one structural chunk |
| `Chunking.CodeChunker.constructor` | doug/rag/rag_engine.py:56-62 | the chunker keeps the size and overlap it is given |
| `Chunking.CodeChunker.ChunkFile` | doug/rag/rag_engine.py:64-91 | the chunks are those of the specification |
| `Chunking.CodeChunker.StructuralChunks` | doug/rag/rag_engine.py:93-152 | the structural chunks of the specification |
| `Chunking.CodeChunker.SlidingWindowChunks` | doug/rag/rag_engine.py:154-192 | the window chunks of the specification |
| `Chunking.WalkWindows` | doug/rag/rag_engine.py:165-190 | the sliding-window loop returns every window of the pass, in order |
| `Chunking.WindowLoopStalls` | doug/rag/rag_engine.py:165-190 | as written, with an overlap of at least the chunk size the window start never moves past 0, so on a non-empty text the loop never ends |
| `Chunking.WindowAt` | doug/rag/rag_engine.py:168-187 | one window's chunk, or nothing when it is blank |
| `ChunkProperties.WindowChunkWellFormed` | doug/rag/rag_engine.py:165-190 | every window chunk is well formed: it names its repository and file, its text is stripped, non-empty and within the size, and its line range is valid |
| `ChunkProperties.SegmentChunkWellFormed` | doug/rag/rag_engine.py:123-150 | every chunk of one segment is well formed; a structural one holds 20 to three chunk sizes of text and its id names its line range |
| `ChunkProperties.SegmentsWellFormed` | doug/rag/rag_engine.py:123-150 | every chunk of the segments is well formed |
| `ChunkProperties.StructuralWellFormed` | doug/rag/rag_engine.py:93-152 | every structural chunk is well formed |
| `ChunkProperties.FileWindowsWellFormed` | doug/rag/rag_engine.py:154-192 | every whole-file window chunk is well formed |
| `ChunkProperties.FileChunksWellFormed` | doug/rag/rag_engine.py:64-91 | every chunk `chunk_file` returns is well formed |
| `ChunkProperties.NonBlankHasWindows` | doug/rag/rag_engine.py:154-192 | the sliding window over a non-blank file gives a chunk |
| `ChunkProperties.BlankIffNoChunks` | doug/rag/rag_engine.py:80-91 | `chunk_file` returns nothing exactly when the content is blank |
| `ChunkProperties.NoDeclarationsMeansWindows` | doug/rag/rag_engine.py:86-91 | without a declaration after the first line, a non-blank file is cut by the sliding window over its whole text |
| `ChunkProperties.OnlyFirstBoundary` | doug/rag/rag_engine.py:110-119 | with no later declaration line, line 0 is the only boundary |
| `ChunkProperties.WindowIdsDistinct` | doug/rag/rag_engine.py:176 | no two chunks of one window pass share an id |
| `ChunkProperties.SegmentChunkFrom` | doug/rag/rag_engine.py:123-150 | a chunk of one segment is its structural chunk, when its text has 20 to three chunk sizes of characters, or one of its windows, when it has more |
| `ChunkProperties.SegmentsSound` | doug/rag/rag_engine.py:123-150 | every chunk of the segment loop comes from one of the segments in that way |
| `ChunkProperties.SegmentsComplete` | doug/rag/rag_engine.py:123-150 | every segment gives its chunks to the segment loop: its structural chunk, or all its windows when it is longer than three chunk sizes |
| `ChunkProperties.SegmentChunkSound` | doug/rag/rag_engine.py:108-150 | each structural chunk comes from the lines between two consecutive boundaries (the last segment ending at the end of the file): its text is those lines joined and stripped, and its id and line numbers name that range; each window chunk is a window of such a segment that is too long |
| `ChunkProperties.SegmentChunkComplete` | doug/rag/rag_engine.py:108-150 | every segment whose stripped text has between 20 and three chunk sizes of characters gives its structural chunk, and every longer one gives all its windows, whose line numbers start at the segment's first line |
| `ChunkProperties.WindowIdsRepeat` | doug/rag/rag_engine.py:130-136 | as written, two oversize segments whose first windows are not blank give two different chunks of one file with the same id `repo:file:w0` |
| `ChunkProperties.FirstWindow` | doug/rag/rag_engine.py:165-187 | the first window of an oversize segment is numbered 0 and starts on the segment's first line |
| `ChunkProperties.FixedSegmentChunks` | doug/rag/rag_engine.py:123-150 | the corrected chunks of one segment are as many as the chunks the source gives |
| `ChunkProperties.FixedSegmentIds` | doug/rag/rag_engine.py:123-150 | with window ids that name their segment, one segment's chunks have distinct ids, each naming the segment's first line |
| `ChunkProperties.FixedSegmentsIds` | doug/rag/rag_engine.py:123-150 | the corrected segment loop gives distinct ids, each naming a line at or after the first segment's |
| `ChunkProperties.FixedMatches` | doug/rag/rag_engine.py:123-150 | the corrected chunks are the source's chunks, in order, but for their ids |
| `ChunkProperties.FixedIdsDistinct` | doug/rag/rag_engine.py:93-152 | with window ids that name their segment, no two structural-pass chunks of a file share an id, and the chunks are otherwise those the source gives |
| `RagIndexers.HashRun` | doug/rag/indexers.py:48 | the run of `#` at `i`: all `#`, ending where a non-`#` character or the end of the text is |
| `RagIndexers.SpaceRun` | doug/rag/indexers.py:48 | the run of white space at `i` |
| `RagIndexers.LineEnd` | doug/rag/indexers.py:48 | the next line feed at or after `i`, or the end |
| `RagIndexers.LastLineChar` | doug/rag/indexers.py:48 | the last character of the line that `.+` can end on, or none when that part is all line feeds |
| `RagIndexers.HeadingMatch` | doug/rag/indexers.py:48 | a heading match at `i` ends after `i` and inside the text |
| `RagIndexers.HeadingSplit` | doug/rag/indexers.py:48 | `re.split` with one group gives an odd number of pieces |
| `RagIndexers.HeadingSplitConcat` | doug/rag/indexers.py:48 | the pieces put back together give the text |
| `RagIndexers.SplitAtHeadingsConcat` | doug/rag/indexers.py:48 | splitting at headings loses and adds nothing |
| `RagIndexers.HeadingMatchIsHeadingPart` | doug/rag/indexers.py:48-55 | every heading the split captures passes the loop's heading test |
| `RagIndexers.OddPieceIsMatch` | doug/rag/indexers.py:48 | every odd piece of the split is a heading match of the text |
| `RagIndexers.SplitHeadingsAreHeadingParts` | doug/rag/indexers.py:48-55 | every captured heading (the odd pieces) opens a new section in the loop |
| `RagIndexers.Sections` | doug/rag/indexers.py:50-70 | there is always a current section |
| `RagIndexers.MakeDocChunk` | doug/rag/indexers.py:84-106 | the id is `repo:file:docN`; text within the size is kept, longer text is cut to the size and marked with `...`; the heading keeps no leading `#` |
| `RagIndexers.DocChunksShape` | doug/rag/indexers.py:54-82 | one chunk per non-blank section, numbered from 0 in order, each non-empty and at most the size plus three characters |
| `RagIndexers.DocumentationIndexer.constructor` | doug/rag/indexers.py:21-27 | the indexer keeps its size and overlap |
| `RagIndexers.DocumentationIndexer.ChunkMarkdown` | doug/rag/indexers.py:29-82 | the chunks are those of the specification |
| `RagIndexers.EmitSections` | doug/rag/indexers.py:54-80 | the loop over the pieces emits the chunks of the sections they form |
| `RagIndexers.EmitPart` | doug/rag/indexers.py:55-70 | a heading piece closes the current section (emitted when not blank) and opens a new one; any other piece extends the current text |
| `RagIndexers.EmitLast` | doug/rag/indexers.py:72-80 | the last section is emitted when not blank |
| `RagIndexers.SectionsAdvance` | doug/rag/indexers.py:55-70 | the section list after one more piece |
| `RagIndexers.ChunkApis` | doug/rag/indexers.py:116-151 | one chunk per endpoint, in order, numbered by position, with the verb, path and file in its text and metadata |
| `RagIndexers.ChunkDependencies` | doug/rag/indexers.py:157-195 | nothing exactly when there are no dependencies; otherwise one `repo:deps:0` chunk naming the build type (`unknown` when missing) and the listed names |
| `Query.ListRepos` | doug/ai_query.py:100-103 | exactly the cached names, strictly sorted |
| `Query.ExtractContextWithoutMatch` | doug/ai_query.py:296-298 | without a match, the excerpt is a prefix of the text of at most `max_chars` characters |
| `Query.ExtractContextShowsMatch` | doug/ai_query.py:299-309 | with a match, the excerpt contains the matched text and is at most the query plus `max_chars` plus the two marks long |
| `Query.ContextWidth` | doug/ai_query.py:300-301 | the window spans at most the query plus twice half of `max_chars` |
| `Query.MatchIndexInRange` | doug/ai_query.py:296 | a match lies inside the text |
| `Query.SummaryOf` | doug/ai_query.py:105-117 | not found exactly when there is no record; otherwise the record's name, summary, build, README and endpoint count |
| `Query.SummaryCountsAgree` | doug/ai_query.py:116 | for an indexed record, the summary's API count equals the count the indexer wrote |
| `Query.SortedSectionsAreSorted` | doug/ai_query.py:132 | the listed sections are `sorted(valid_sections)` |
| `Query.SectionOf` | doug/ai_query.py:124-138 | a section has data exactly when it is one of the nine |
| `Query.DetailCases` | doug/ai_query.py:119-139 | an unknown repository, then an invalid section (which lists the sorted valid sections), and otherwise the section's data, each exactly when its condition holds |
| `Query.SectionMatchesExact` | doug/ai_query.py:252-260 | a match comes from an item of the section whose path contains the pattern, ignoring case, and every such item gives one |
| `Query.FindFileExact` | doug/ai_query.py:244-267 | the total is the number of matches, and the matches are exactly the items of the four sections whose paths contain the pattern |
| `Query.MatchesUpToExact` | doug/ai_query.py:252-260 | the same over the first n sections |
| `Query.CollectMatches` | doug/ai_query.py:252-260 | the section loop returns the specification's matches |
| `Query.AppendMatches` | doug/ai_query.py:253-260 | the item loop appends exactly the matching items |
| `Query.FallbackStep` | doug/ai_query.py:153-159 | one more repository appends its tagged endpoints |
| `Query.FallbackIsCatalog` | doug/ai_query.py:148-159 | when every cache file loads, the fallback listing equals the API catalog the global indexer writes |
| `Query.FallbackIsCatalogUpTo` | doug/ai_query.py:148-159 | the same over any list of names |
| `Query.AppendTaggedApis` | doug/ai_query.py:156-159 | the inner loop appends the tagged endpoints |
| `Query.ItemsFromKeeps` | doug/ai_query.py:194-211 | the item loop keeps every list within its cap and every hit matching the query |
| `Query.SectionsFromKeeps` | doug/ai_query.py:193-211 | the same over the four sections |
| `Query.ApisFromKeeps` | doug/ai_query.py:214-223 | the endpoint loop keeps the API list capped and its hits matching |
| `Query.RepoStepKeeps` | doug/ai_query.py:187-231 | one repository keeps the search invariant: capped lists, matching hits, categories allowed by the scope |
| `Query.ReposFromKeeps` | doug/ai_query.py:187-231 | every repository keeps the invariant |
| `Query.CategoriesAre` | doug/ai_query.py:233 | a listed category is non-empty and is one of the four lists |
| `Query.SearchFound` | doug/ai_query.py:179-242 | the search answer is the summary of a state that satisfies the invariant |
| `Query.SearchCapsAndScope` | doug/ai_query.py:187-233 | only non-empty categories are listed; files, apis and classes hold at most `max_results`; files and classes only for scopes `all` and `files`, apis for `all` and `apis`, README mentions only for `all` |
| `Query.SearchHitsMatch` | doug/ai_query.py:192-231 | every hit matches the query, ignoring case: a file hit by its path, a class hit by its class (and not its path), an API hit by its path, and a README mention is the context of the query in the README of the stored repository it names, which mentions the query |
| `Query.SearchTotal` | doug/ai_query.py:233-242 | the total is the sum of the listed lengths, and the answer is marked truncated exactly when the total reaches `max_results` |
| `Query.TotalOfCategories` | doug/ai_query.py:233-235 | the total over the listed categories is the sum of the four list lengths, so leaving out the empty ones changes nothing |
| `Query.ClassesScopeFindsNothing` | doug/ai_query.py:192-231 | scope `classes` finds nothing, since no branch searches for it alone |
| `Query.ItemsFromUncapped` | doug/ai_query.py:194-211 | while the file hits stay below `max_results` and the class hits within it, the item loop appends exactly the file hit of every item whose path matches and the class hit of every other item whose class matches, in order |
| `Query.ItemStepUncapped` | doug/ai_query.py:194-211 | while the file list is not full, one item adds its file hit, and its class hit unless the class list is full |
| `Query.SectionsFromUncapped` | doug/ai_query.py:192-211 | within the same bounds, the four sections contribute their file hits and class hits, section by section |
| `Query.ApisFromUncapped` | doug/ai_query.py:213-223 | while the API hits stay within `max_results`, the endpoint loop appends exactly the endpoints whose path matches, in order |
| `Query.RepoStepUncapped` | doug/ai_query.py:191-231 | within the bounds of the categories the scope searches, a repository contributes all its file, class and API hits and its README mention, each only when the scope searches that category |
| `Query.ReposFromUncapped` | doug/ai_query.py:186-231 | within the bounds of the categories the scope searches, the search state gains every stored repository's hits, repository by repository |
| `Query.SearchComplete` | doug/ai_query.py:179-242 | while the matching files stay below `max_results` and the matching classes within it (only required when the scope searches files), and the matching endpoints within it (only when it searches endpoints), the listed categories are exactly every matching item, endpoint and README mention of the stored repositories, in name order, each category only when the scope searches it |
| `Query.StoreMentionsCons` | doug/ai_query.py:225-231 | the README hits over a list of repositories are the first one's mention, if its README mentions the query, then the rest's |
| `Query.StoreMentions` | doug/ai_query.py:225-231 | every README hit is the mention of a stored repository whose non-empty README mentions the query, and every such repository has its mention |
| `Query.StoreMentionsOrdered` | doug/ai_query.py:186-231 | README mentions come in strictly increasing repository order, so each repository is mentioned at most once |
| `Query.ReposFromReadme` | doug/ai_query.py:224-231 | README mentions are never capped: the search state gains every stored repository's mention when the scope is `all`, none otherwise |
| `Query.SearchReadmeMentions` | doug/ai_query.py:224-235 | with scope `all`, `readme_mentions` is listed exactly when some README mentions the query and holds exactly those mentions; with any other scope it is absent |
| `Query.FullFilesStop` | doug/ai_query.py:195-196 | once the file list is full, a section adds nothing, not even classes |
| `Query.FullApisStop` | doug/ai_query.py:215-216 | once the API list is full, endpoints add nothing |
| `Query.SearchRepo` | doug/ai_query.py:192-231 | one repository's search step |
| `Query.SearchItems` | doug/ai_query.py:194-211 | the item loop computes the specification's state |
| `Query.SearchApis` | doug/ai_query.py:214-223 | the endpoint loop computes the specification's state |
| `Query.AIQueryTool.constructor` | doug/ai_query.py:31-35 | a tool over the cache starts with an empty memo |
| `Query.AIQueryTool.LoadRepoCache` | doug/ai_query.py:37-52 | the record stored under the name, remembered in the memo when it loads |
| `Query.AIQueryTool.RepoSummary` | doug/ai_query.py:105-117 | the summary of the stored record |
| `Query.AIQueryTool.RepoDetail` | doug/ai_query.py:119-139 | the detail of the stored record |
| `Query.AIQueryTool.FindFile` | doug/ai_query.py:244-267 | the file matches of the stored record |
| `Query.AIQueryTool.ListApis` | doug/ai_query.py:141-161 | one repository's endpoints (none when unknown), else the catalog, else the fallback |
| `Query.AIQueryTool.ListAllApis` | doug/ai_query.py:152-161 | the fallback loop over all cached repositories |
| `Query.AIQueryTool.AppendRepoApis` | doug/ai_query.py:154-159 | one repository's tagged endpoints appended |
| `Query.AIQueryTool.Search` | doug/ai_query.py:163-242 | the search loop returns the specification's answer |
| `Query.AIQueryTool.SearchOne` | doug/ai_query.py:188-231 | one repository searched when its record loads, skipped otherwise |
| `RepoNames.SchemeEnd` | doug/cache_manager.py:47 | a scheme is a run of scheme characters ending at the first `:` |
| `RepoNames.UrlPath` | doug/cache_manager.py:47-48 | `urlparse(url).path` holds no query or fragment character |
| `RepoNames.ExtractRepoName` | doug/cache_manager.py:27-53 | the name is non-empty and made of `[a-zA-Z0-9_.-]` only |
| `RepoNames.UnknownRepoIsSafe` | doug/cache_manager.py:53 | the fallback name is itself safe |
| `RepoNames.RepoPath` | doug/cache_manager.py:123-125 | the path is the repositories directory joined with the name, a single component without separator; `pathlib` drops the component `.`, so for the name `.` the path is the repositories directory itself |
| `RepoNames.DotSegmentNames` | doug/cache_manager.py:27-53 | an `https` URL whose last segment is `.` or `..` names the repository `.` or `..` (`https://h/o/.` gives `.`), and for `.` the checkout path is the repositories directory |
| `RepoNames.CheckoutName` | doug/cache_manager.py:123-143 | the corrected name is never `.` or `..`, and otherwise the name `_extract_repo_name` gives |
| `RepoNames.CheckoutPath` | doug/cache_manager.py:123-143 | the corrected checkout path is always one proper component below the repositories directory |
| `RepoNames.SafeRawNameKept` | doug/cache_manager.py:52-53 | a raw name that is already safe is returned unchanged |
| `RepoNames.HttpsRawName` | doug/cache_manager.py:46-49 | the raw name of an HTTPS URL is its last path segment |
| `RepoNames.SshRawName` | doug/cache_manager.py:43-44 | the raw name of `git@host:name` or `git@host/name` is the name |
| `RepoNames.TrimmedPadded` | doug/cache_manager.py:36-40 | stripping, trimming `/` and cutting `.git` recover the bare URL |
| `RepoNames.HttpsUrlName` | doug/cache_manager.py:27-53 | an HTTPS URL, with or without `.git`, a trailing `/` or padding, at any depth, is named by its last segment |
| `RepoNames.SshUrlName` | doug/cache_manager.py:27-53 | an SSH URL, with or without `.git` or padding, is named by its last segment |
| `RepoConfig.ParseLine` | doug/cache_manager.py:99-112 | a line gives an entry exactly when it is neither blank nor a comment; the URL holds no `#`, and the branch holds neither `#` nor a comma |
| `RepoConfig.ParsedLines` | doug/cache_manager.py:98-112 | at most one entry per line |
| `RepoConfig.DedupUrls` | doug/cache_manager.py:113-116 | de-duplication keeps every URL |
| `RepoConfig.DedupDistinct` | doug/cache_manager.py:113-116 | no URL is kept twice |
| `RepoConfig.DedupKeepsFirst` | doug/cache_manager.py:113-116 | the entry kept for a URL is its first |
| `RepoConfig.DedupSnoc` | doug/cache_manager.py:114-116 | an entry is appended exactly when its URL has not been seen |
| `RepoConfig.KeepEntry` | doug/cache_manager.py:114-116 | one step of the loop keeps the de-duplicated list and its URL set |
| `RepoConfig.LoadLines` | doug/cache_manager.py:98-116 | the loop over a file's lines continues the de-duplicated list |
| `RepoConfig.LoadConfigs` | doug/cache_manager.py:90-121 | the loop over the files returns the first entry for each URL over all readable files, in order |
| `RepoConfig.ConfigFileNames` | doug/config.py:236-239 | only files of the directory are read |
| `RepoConfig.ParseUrlLine` | doug/cache_manager.py:107 | a plain URL line reads as that URL, without a branch |
| `RepoConfig.ParseUrlBranchLine` | doug/cache_manager.py:109-112 | a `url,branch` line reads as that URL and branch |
| `RepoConfig.ParseEntryLine` | doug/cache_manager.py:291 | the line `add_repo` writes reads back as the entry it was given |
| `RepoConfig.AppendedEntries` | doug/cache_manager.py:291-293 | appending the line adds exactly that one entry after the file's entries |
| `RepoConfig.AddedEntryLoads` | doug/cache_manager.py:280-295 | with the duplicate check done on what the loader reads, the entry added is the one loaded for its URL |
| `RepoConfig.AppendKeepsLoaded` | doug/cache_manager.py:291-293 | appending a URL that is already read changes nothing the loader reports for it |
| `RepoConfig.InlineCommentHidesDuplicate` | doug/cache_manager.py:280-289 | the check as written misses a URL whose line has an inline comment, and the branch then appended is never loaded |
| `RepoConfig.AddTwiceRefused` | doug/cache_manager.py:280-293 | after `add_repo` appends a URL without comma, line break or trailing white space (and a one-line branch), the check as written finds it, so adding it again is refused |
| `RepoConfig.AsWrittenEntryLine` | doug/cache_manager.py:280-293 | the line `add_repo` writes is one listed line whose stripped first comma field is the URL |
| `RepoConfig.ConfiguredUrlLoads` | doug/cache_manager.py:90-119 | a URL the corrected check refuses as configured is one the loader reports |
| `RepoConfig.ReadLines` | doug/cache_manager.py:302-303 | `readlines` loses nothing: the lines put back together give the file |
| `RepoConfig.ReadLinesOfJoin` | doug/cache_manager.py:320-321 | reading back lines that were written gives the same lines |
| `RepoConfig.KeptLinesExact` | doug/cache_manager.py:305-315 | the kept lines are exactly the lines not removed, in order |
| `RepoConfig.KeptLinesNoneDropped` | doug/cache_manager.py:307-315 | no kept line names the repository |
| `RepoConfig.RemoveAgainDropsNothing` | doug/cache_manager.py:297-323 | after a removal, removing the same name again finds nothing |
| `RepoConfig.KeptLinesStep` | doug/cache_manager.py:307-315 | one line of the loop is kept or removed |
| `RepoConfig.FilterLines` | doug/cache_manager.py:305-315 | the loop returns the kept lines and whether any line was removed |
| `RepoConfig.CacheManager.constructor` | doug/cache_manager.py:86-88 | a manager over the repositories directory and the configuration files |
| `RepoConfig.CacheManager.LoadRepositoryConfigs` | doug/cache_manager.py:90-121 | the first entry for each URL, over the `*.txt` files in name order |
| `RepoConfig.CacheManager.AddRepo` | doug/cache_manager.py:269-295 | an invalid prefix is refused and nothing changes; an unreadable `repos.txt` is an error; a URL equal to the stripped first comma field of a listed line, inline comment included, is refused; otherwise its line is appended and nothing else changes |
| `RepoConfig.CacheManager.RemoveRepo` | doug/cache_manager.py:297-323 | no file, then an unreadable file, then no matching line, are each reported with nothing changed; otherwise the file is rewritten without the matching lines |
| `Order.SortedSet` | doug/ai_query.py:103 | `sorted` of a set: strictly ascending, with the same elements |
| `Order.SortedUnique` | doug/indexer.py:599-602 | two strictly sorted lists with the same elements are equal, so `sorted` is determined by its elements |

## Left out

- The file system, the JSON cache files, `json.loads` and `json.dump`, MD5 and the clock are not modelled. Their results are inputs: a checkout is a sequence of entries in walk order; `md5`, `decode` and `now` are parameters (`decode` tells text that is not JSON from JSON of the wrong shape for a `package.json`); a cache file is a decoded record or `None`.
- Missing keys and wrongly typed values in cache files are not modelled: a loaded record is the indexer's own record type.
- The thread pool of `index_all` is not modelled. Runs are folded in the order the repositories are found, and a name indexed twice keeps the last success, which is one order `as_completed` can give.
- Writing the three index files, `mkdir` and `index_repo`'s cache write are not modelled; `index_repo` is a parameter returning the record or `None`.
- Regular expressions are explicit scanners, not a regex engine. `\w` and case folding cover ASCII only. The lazy `.*?` of the generic `@RequestMapping` pattern is read as the first quoted literal after an optional `method = RequestMethod.X`.
- Text files are split at `\n` only: universal-newline translation and a lone `\r` are not modelled (`splitlines` for `requirements.txt` is modelled).
- `read_text(errors="replace")` decoding is not modelled: a file is readable text or unreadable.
- `urlparse` is modelled only for the path it gives. Its exceptions and its NFKC check on the network location are left out.
- `Chunking.CodeChunker.constructor`: requires the overlap to be below the chunk size, which the source does not check; with a larger overlap the source's sliding window never advances (see Findings).
- `_run_git`, `clone_repo`, `pull_repo`, `clone_all`, `pull_all`, `get_cloned_repos`, `get_repo_info` and `get_cache_status`: Git subprocesses, threads and directory listings, not computation.
- `AIQueryTool.status`, `quick_overview`, `_load_global_index`: reading and formatting of files; `_load_apis_index` is the optional catalog parameter.
- `Query.AIQueryTool.LoadRepoCache`: the memo never goes stale, since the cache files do not change while the tool runs.
- `RAGEngine` and `_check_rag_dependencies`: the vector store and embedding model are foreign services.
- `Patterns.Package` and `Patterns.PrimaryClass` state the shape of the name found, not which occurrence is found first.

## Findings

| source | as written | input that shows it | evidently intended | confidence | as-written member | corrected member |
|---|---|---|---|---|---|---|
| doug/cache_manager.py:280-286 | `add_repo` collects existing URLs as the first comma field of each listed line, with an inline `#` comment left in, while the loader (lines 104-105) cuts the comment off | `repos.txt` holding `https://h/o/r.git #note`, then `add_repo("https://h/o/r.git", "dev")` | the URL is refused as already configured, as the loader reads it | not executed | `RepoConfig.CacheManager.AddRepo`, `RepoConfig.ListedUrlsAsWritten`, `RepoConfig.InlineCommentHidesDuplicate` | `RepoConfig.ConfiguredUrls`, `RepoConfig.AddedEntryLoads` |
| doug/cache_manager.py:123-143 | `get_repo_path` joins the repositories directory with a name that may be `.` or `..`, since `.` is a safe character; `pathlib` drops the `.`, so the path is the repositories directory itself, which the containment check on line 135 accepts | `clone_repo("https://h/o/.", force=True)` | a checkout path strictly below the repositories directory; as written the directory exists, and with `force` `rmtree` (line 142) would remove every clone | not executed | `RepoNames.RepoPath`, `RepoNames.DotSegmentNames` | `RepoNames.CheckoutName`, `RepoNames.CheckoutPath` |
| doug/rag/rag_engine.py:56-62 | the constructor accepts any overlap, and the window loop adds `chunk_size - chunk_overlap` to its position (line 189) | `CodeChunker(chunk_size=64, chunk_overlap=64)` chunking a non-blank file without declarations | an overlap below the size, so that every window starts after the previous one | not executed | `Chunking.WindowLoopStalls` | `Chunking.CodeChunker.constructor`, `Chunking.WalkWindows` |
| doug/rag/rag_engine.py:130-176 | the window counter restarts at 0 in every call of `_sliding_window_chunks` (line 166), and `_structural_chunks` makes one call per oversize segment; the id `repo:file:wK` (line 176) does not name the segment | a file with two declarations, each longer than three chunk sizes | chunk ids unique within a file, for instance by naming the segment's first line in window ids | not executed | `ChunkProperties.WindowIdsRepeat` | `ChunkProperties.FixedStructuralOf`, `ChunkProperties.FixedIdsDistinct` |
