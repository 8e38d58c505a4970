/** The indexer's pattern library: the role a source file plays (from its name, then from
    its annotations), the API routes it declares for each ecosystem, and its package and
    primary type. */
module Patterns {
  import opened Wrappers
  import opened Text
  import opened Matchers

  // ---------------------------------------------------------------------------------------------
  // File names
  // ---------------------------------------------------------------------------------------------

  /** `Path.suffix`: from the last dot of the name, unless that dot is the first or the last
      character. */
  function Suffix(name: string): (r: string)
    ensures r == "" || (|r| >= 2 && r[0] == '.' && EndsWith(name, r) && |r| < |name|)
  {
    var i := RIndexOfChar(name, '.');
    if 0 < i < |name| - 1 then name[i..] else ""
  }

  /** `Path.stem`: the name without its suffix. */
  function Stem(name: string): (r: string)
    ensures r + Suffix(name) == name
  {
    var i := RIndexOfChar(name, '.');
    if 0 < i < |name| - 1 then name[..i] else name
  }

  // ---------------------------------------------------------------------------------------------
  // Role classification
  // ---------------------------------------------------------------------------------------------

  datatype Role = Test | Controller | Service | Repository | Model {
    /** The value stored under the record's `type` key. */
    function Name(): string {
      match this
      case Test => "test"
      case Controller => "controller"
      case Service => "service"
      case Repository => "repository"
      case Model => "model"
    }

    /** Position in the first-match-wins order. */
    function Priority(): nat {
      match this
      case Test => 0
      case Controller => 1
      case Service => 2
      case Repository => 3
      case Model => 4
    }
  }

  /** Tokens that must end at a word boundary. */
  function Bounded(words: seq<string>): seq<Token> {
    seq(|words|, k requires 0 <= k < |words| => Token(words[k], true))
  }

  const TestNames := Tokens([Token("Test", true), Token("Spec", true), Token("test_", false),
                             Token("_test.", false), Token(".test.", false), Token(".spec.", false)])
  const ControllerNames := Tokens(Bounded(["Controller", "Handler", "Resource", "Endpoint", "Router"]))
  const ServiceNames := Tokens(Bounded(["Service", "Manager", "Provider", "Processor", "Worker", "UseCase"]))
  const RepositoryNames := Tokens(Bounded(["Repository", "Repo", "DAO", "DataAccess", "Store", "Gateway"]))
  const ModelNames := Tokens(Bounded(["Model", "Entity", "DTO", "Schema", "Domain", "Record", "Pojo"]))

  predicate Found(s: string, m: Matcher) {
    Search(s, m).Some?
  }

  /** The file-name rule for `role`: its tokens occur in the stem; a test is also recognised
      by `/test` anywhere in the lower-cased relative path. */
  predicate NameMatches(path: string, stem: string, role: Role) {
    match role
    case Test => Found(stem, TestNames) || Contains(Lower(path), "/test")
    case Controller => Found(stem, ControllerNames)
    case Service => Found(stem, ServiceNames)
    case Repository => Found(stem, RepositoryNames)
    case Model => Found(stem, ModelNames)
  }

  /** The annotation rule for `role`; no annotation marks a test. */
  predicate ContentMatches(content: string, role: Role) {
    match role
    case Test => false
    case Controller => Contains(content, "@RestController") || Contains(content, "@Controller")
    case Service => Contains(content, "@Service") || Contains(content, "@Component")
    case Repository => Contains(content, "@Repository") || Contains(content, "@Mapper")
    case Model => Contains(content, "@Entity") || Contains(content, "@Table") || Contains(content, "@Document")
  }

  /** `_classify_file`: the rules tried one after the other, names before annotations, and
      annotations only for non-empty content. */
  function Classify(path: string, stem: string, content: string): Option<Role> {
    if NameMatches(path, stem, Test) then Some(Test)
    else if NameMatches(path, stem, Controller) then Some(Controller)
    else if NameMatches(path, stem, Service) then Some(Service)
    else if NameMatches(path, stem, Repository) then Some(Repository)
    else if NameMatches(path, stem, Model) then Some(Model)
    else if content != "" then
      if ContentMatches(content, Controller) then Some(Controller)
      else if ContentMatches(content, Service) then Some(Service)
      else if ContentMatches(content, Repository) then Some(Repository)
      else if ContentMatches(content, Model) then Some(Model)
      else None
    else None
  }

  /** Classification is first-match-wins: a file gets the highest-priority role whose name
      rule holds; only when no name rule holds does the highest-priority annotation rule
      decide; and it gets no role when neither does. */
  lemma ClassifyIsFirstMatch(path: string, stem: string, content: string, role: Role)
    ensures Classify(path, stem, content) == Some(role) <==>
      (NameMatches(path, stem, role)
       && forall other: Role :: other.Priority() < role.Priority() ==> !NameMatches(path, stem, other))
      || ((forall other: Role :: !NameMatches(path, stem, other))
          && content != "" && ContentMatches(content, role)
          && forall other: Role :: other.Priority() < role.Priority() ==> !ContentMatches(content, other))
    ensures Classify(path, stem, content) == None <==>
      (forall other: Role :: !NameMatches(path, stem, other))
      && (content == "" || forall other: Role :: !ContentMatches(content, other))
  {
    ClassifyGivesFirstMatch(path, stem, content, role);
    ClassifyNoneIffNoRule(path, stem, content);
  }

  /** The role given is the highest-priority name match, or failing any, the highest-priority
      annotation match. */
  lemma ClassifyGivesFirstMatch(path: string, stem: string, content: string, role: Role)
    ensures Classify(path, stem, content) == Some(role) <==>
      (NameMatches(path, stem, role)
       && forall other: Role :: other.Priority() < role.Priority() ==> !NameMatches(path, stem, other))
      || ((forall other: Role :: !NameMatches(path, stem, other))
          && content != "" && ContentMatches(content, role)
          && forall other: Role :: other.Priority() < role.Priority() ==> !ContentMatches(content, other))
  {
    match role {
      case Test =>
      case Controller =>
      case Service =>
      case Repository =>
      case Model =>
    }
  }

  /** No role is given exactly when no rule matches. */
  lemma ClassifyNoneIffNoRule(path: string, stem: string, content: string)
    ensures Classify(path, stem, content) == None <==>
      (forall other: Role :: !NameMatches(path, stem, other))
      && (content == "" || forall other: Role :: !ContentMatches(content, other))
  {
  }

  // ---------------------------------------------------------------------------------------------
  // Route extraction
  // ---------------------------------------------------------------------------------------------

  /** One API route: its HTTP verb, its path and the file that declares it. */
  datatype Endpoint = Endpoint(verb: string, path: string, file: string)

  /** The alternatives `lead(?:r1|r2|...)\.(v1|v2|...)\(`, receivers outermost. */
  function RouteHeads(lead: string, receivers: seq<string>, verbs: seq<string>): seq<Head> {
    if receivers == [] then []
    else seq(|verbs|, k requires 0 <= k < |verbs| => Head(lead + receivers[0] + "." + verbs[k] + "(", verbs[k]))
         + RouteHeads(lead, receivers[1..], verbs)
  }

  const SpringMethodMapping := Call([Head("@GetMapping(", "Get"), Head("@PostMapping(", "Post"),
                                     Head("@PutMapping(", "Put"), Head("@DeleteMapping(", "Delete"),
                                     Head("@PatchMapping(", "Patch")], false, true)
  const SpringClassMapping := Call([Head("@RequestMapping(", "")], false, true)
  const ExpressRoute := Call(RouteHeads("", ["app", "router"], ["get", "post", "put", "delete", "patch", "all"]), true, false)
  const FlaskRoute := Call(RouteHeads("@", ["app", "blueprint", "bp"], ["route", "get", "post", "put", "delete", "patch"]), true, false)
  const FastApiRoute := Call(RouteHeads("@", ["app", "router"], ["get", "post", "put", "delete", "patch", "options", "head"]), true, false)
  const GoRoute := Call([Head("Handle(", ""), Head("HandleFunc(", ""), Head("GET(", ""), Head("POST(", ""),
                         Head("PUT(", ""), Head("DELETE(", ""), Head("PATCH(", "")], false, false)

  /** The path of the first class-level `@RequestMapping("...")`, without trailing slashes,
      or "" when there is none. */
  predicate IsSlash(c: char) {
    c == '/'
  }

  function ClassPath(content: string): (r: string)
    ensures r == "" || r[|r| - 1] != '/'
  {
    match Search(content, SpringClassMapping)
    case Some(h) => TrimRight(h.second, IsSlash)
    case None => ""
  }

  /** `f"{class_path}/{path}".replace("//", "/")`. */
  function JoinPath(classPath: string, path: string): string {
    ReplaceDoubleSlash(classPath + "/" + path)
  }

  lemma NoDoubleSlashInTail(s: string)
    requires s != "" && !HasDoubleSlash(s)
    ensures !HasDoubleSlash(s[1..])
  {
    var t := s[1..];
    forall i | 0 <= i < |t| - 1 ensures !(t[i] == '/' && t[i + 1] == '/') {
      assert t[i] == s[i + 1] && t[i + 1] == s[i + 2];
    }
  }

  /** Rewriting leaves a prefix alone when the prefix has no doubled slash and does not end
      in a slash. */
  lemma {:induction false} ReplaceAfterCleanPrefix(a: string, t: string)
    requires !HasDoubleSlash(a) && (a == "" || a[|a| - 1] != '/')
    ensures ReplaceDoubleSlash(a + t) == a + ReplaceDoubleSlash(t)
    decreases |a|
  {
    if a != "" {
      var a' := a[1..];
      NoDoubleSlashInTail(a);
      ReplaceAfterCleanPrefix(a', t);
      assert (a + t)[1..] == a' + t;
      if |a| >= 2 {
        assert !(a[0] == '/' && a[1] == '/');
      } else {
        assert a[0] != '/';
      }
      assert !(|a + t| >= 2 && (a + t)[0] == '/' && (a + t)[1] == '/');
      calc {
        ReplaceDoubleSlash(a + t);
        [a[0]] + ReplaceDoubleSlash(a' + t);
        [a[0]] + (a' + ReplaceDoubleSlash(t));
        { assert a == [a[0]] + a'; }
        a + ReplaceDoubleSlash(t);
      }
    } else {
      assert a + t == t;
      assert a + ReplaceDoubleSlash(t) == ReplaceDoubleSlash(t);
    }
  }

  /** The route join puts exactly one slash between a clean class prefix and a clean path:
      "/api/v1" and "/users" give "/api/v1/users", "" and "/users" give "/users". */
  lemma JoinPathClean(classPath: string, path: string)
    requires !HasDoubleSlash(classPath) && (classPath == "" || classPath[|classPath| - 1] != '/')
    requires !HasDoubleSlash(path)
    ensures JoinPath(classPath, path) == classPath + (if path != "" && path[0] == '/' then path else "/" + path)
  {
    ReplaceAfterCleanPrefix(classPath, "/" + path);
    assert classPath + "/" + path == classPath + ("/" + path);
    SlashBeforeCleanPath(path);
  }

  /** A slash put before a path without doubled slashes merges with the path's own leading
      slash. */
  lemma SlashBeforeCleanPath(path: string)
    requires !HasDoubleSlash(path)
    ensures ReplaceDoubleSlash("/" + path) == (if path != "" && path[0] == '/' then path else "/" + path)
  {
    if path != "" && path[0] == '/' {
      var rest := path[1..];
      NoDoubleSlashInTail(path);
      assert "/" + path == "//" + rest;
      assert ("//" + rest)[2..] == rest;
      assert ReplaceDoubleSlash("/" + path) == "/" + ReplaceDoubleSlash(rest);
      ReplaceDoubleSlashIdentity(rest);
      assert path == "/" + rest;
    } else {
      assert !HasDoubleSlash("/" + path) by {
        forall i | 0 <= i < |"/" + path| - 1 ensures !(("/" + path)[i] == '/' && ("/" + path)[i + 1] == '/') {
          if i > 0 {
            assert ("/" + path)[i] == path[i - 1] && ("/" + path)[i + 1] == path[i];
          }
        }
      }
      ReplaceDoubleSlashIdentity("/" + path);
    }
  }

  lemma JoinPathExamples()
    ensures JoinPath("/api/v1", "/users") == "/api/v1/users"
    ensures JoinPath("", "/users") == "/users"
    ensures JoinPath("/api", "users") == "/api/users"
  {
    assert !HasDoubleSlash("/api/v1") && !HasDoubleSlash("/users");
    JoinPathClean("/api/v1", "/users");
    JoinPathClean("", "/users");
    assert !HasDoubleSlash("/api") && !HasDoubleSlash("users");
    JoinPathClean("/api", "users");
  }

  /** The Go route verb: the first of POST, PUT, DELETE, PATCH that occurs in the upper-cased
      line, GET when none does. */
  function GoVerb(line: string): (r: string)
    ensures r in ["POST", "PUT", "DELETE", "PATCH", "GET"]
    ensures r == "GET" <==> forall v :: v in ["POST", "PUT", "DELETE", "PATCH"] ==> !Contains(Upper(line), v)
    ensures r != "GET" ==> Contains(Upper(line), r)
    ensures r == "PUT" ==> !Contains(Upper(line), "POST")
    ensures r == "DELETE" ==> !Contains(Upper(line), "POST") && !Contains(Upper(line), "PUT")
    ensures r == "PATCH" ==> !Contains(Upper(line), "POST") && !Contains(Upper(line), "PUT") && !Contains(Upper(line), "DELETE")
  {
    var u := Upper(line);
    if Contains(u, "POST") then "POST"
    else if Contains(u, "PUT") then "PUT"
    else if Contains(u, "DELETE") then "DELETE"
    else if Contains(u, "PATCH") then "PATCH"
    else "GET"
  }

  /** How each extractor turns one match into endpoints. */
  type Rule = Hit -> seq<Endpoint>

  /** Every endpoint the rule produces names `file`. */
  ghost predicate NamesFile(rule: Rule, file: string) {
    forall h, e :: e in rule(h) ==> e.file == file
  }

  /** The rule produces exactly one endpoint per match. */
  ghost predicate OnePerMatch(rule: Rule) {
    forall h :: |rule(h)| == 1
  }

  /** `@GetMapping("p")` and its siblings: the verb from the annotation, the path joined to
      the class prefix. */
  function SpringMethodRule(classPath: string, file: string): (r: Rule)
    ensures NamesFile(r, file) && OnePerMatch(r)
  {
    (h: Hit) => [Endpoint(Upper(h.first), JoinPath(classPath, h.second), file)]
  }

  function SpringGenericRule(classPath: string, file: string): (r: Rule)
    ensures NamesFile(r, file)
  {
    (h: Hit) => SpringGenericEndpoint(h, classPath, file)
  }

  /** Express and FastAPI: the verb captured from the call, upper-cased. */
  function VerbRule(file: string): (r: Rule)
    ensures NamesFile(r, file) && OnePerMatch(r)
  {
    (h: Hit) => [Endpoint(Upper(h.first), h.second, file)]
  }

  function FlaskRule(content: string, file: string): (r: Rule)
    ensures NamesFile(r, file)
  {
    (h: Hit) => FlaskEndpoints(content, h, file)
  }

  function GoRule(content: string, file: string): (r: Rule)
    ensures NamesFile(r, file) && OnePerMatch(r)
  {
    (h: Hit) => GoEndpoint(content, h, file)
  }

  /** A generic `@RequestMapping` without a `RequestMethod` is a GET, and one whose path is the
      class prefix itself is skipped. */
  function SpringGenericEndpoint(h: Hit, classPath: string, file: string): (r: seq<Endpoint>)
    ensures |r| <= 1
    ensures r == [] <==> h.second == classPath
    ensures r != [] ==> r[0] == Endpoint(if h.first == "" then "GET" else Upper(h.first), JoinPath(classPath, h.second), file)
  {
    if h.second != classPath then [Endpoint(Upper(if h.first == "" then "GET" else h.first), JoinPath(classPath, h.second), file)]
    else []
  }

  /** The methods of a `methods=[...]` list: split at commas, each stripped of blanks and then
      of quotes, upper-cased. */
  function ListedMethods(list: string): (r: seq<string>)
    ensures |r| == |Split(list, ',')|
  {
    MethodNames(Split(list, ','))
  }

  /** Each listed part stripped of blanks, then of quotes, and upper-cased. */
  function MethodNames(parts: seq<string>): (r: seq<string>)
    ensures |r| == |parts|
  {
    if parts == [] then []
    else MethodNames(parts[..|parts| - 1]) + [MethodName(parts[|parts| - 1])]
  }

  function MethodName(part: string): string {
    Upper(StripQuotes(Strip(part)))
  }

  /** The k-th name comes from the k-th listed part. */
  lemma {:induction false} MethodNamesAt(parts: seq<string>)
    ensures forall k :: 0 <= k < |parts| ==> MethodNames(parts)[k] == MethodName(parts[k])
  {
    if parts != [] {
      var init := parts[..|parts| - 1];
      MethodNamesAt(init);
      var names, all := MethodNames(init), MethodNames(parts);
      var last := parts[|parts| - 1];
      assert all == names + [MethodName(last)];
      forall k | 0 <= k < |parts| ensures all[k] == MethodName(parts[k]) {
        if k < |init| {
          assert all[k] == names[k] && parts[k] == init[k];
        } else {
          assert k == |init| && parts[k] == last;
        }
      }
    }
  }

  /** No listed method holds a lower-case letter, and none starts or ends with a quote. */
  lemma MethodNamesUpper(parts: seq<string>)
    ensures forall k, j :: 0 <= k < |parts| && 0 <= j < |MethodNames(parts)[k]| ==>
      !('a' <= MethodNames(parts)[k][j] <= 'z')
    ensures forall k :: 0 <= k < |parts| && MethodNames(parts)[k] != "" ==>
      !IsQuoteChar(MethodNames(parts)[k][0]) && !IsQuoteChar(MethodNames(parts)[k][|MethodNames(parts)[k]| - 1])
  {
    MethodNamesAt(parts);
    forall k | 0 <= k < |parts|
      ensures forall j :: 0 <= j < |MethodName(parts[k])| ==> !('a' <= MethodName(parts[k])[j] <= 'z')
      ensures MethodName(parts[k]) != "" ==>
        !IsQuoteChar(MethodName(parts[k])[0]) && !IsQuoteChar(MethodName(parts[k])[|MethodName(parts[k])| - 1])
    {
      UpperUnquoted(Strip(parts[k]));
    }
  }

  /** Upper-casing text stripped of quotes leaves no lower-case letter and no quote at either end. */
  lemma UpperUnquoted(s: string)
    ensures var u := Upper(StripQuotes(s));
      (forall j :: 0 <= j < |u| ==> !('a' <= u[j] <= 'z'))
      && (u != "" ==> !IsQuoteChar(u[0]) && !IsQuoteChar(u[|u| - 1]))
  {
    var l := TrimLeft(s, IsQuoteChar);
    var q := TrimRight(l, IsQuoteChar);
    assert q != "" ==> q[0] == l[0];
  }

  /** One endpoint per listed method, all on `path` in `file`. */
  function EndpointsFor(methods: seq<string>, path: string, file: string): (r: seq<Endpoint>)
    ensures |r| == |methods|
    ensures forall k :: 0 <= k < |r| ==> r[k] == Endpoint(methods[k], path, file)
  {
    if methods == [] then []
    else EndpointsFor(methods[..|methods| - 1], path, file) + [Endpoint(methods[|methods| - 1], path, file)]
  }

  /** Where a search in `content[start:]` begins (Python clamps the slice). */
  function Clamp(i: nat, len: nat): (r: nat)
    ensures r <= len && (i <= len ==> r == i)
  {
    if i <= len then i else len
  }

  /** A Flask `route` takes its verbs from the first `methods=[...]` at or after the decorator
      and defaults to one GET; a verb decorator gives its own verb. */
  function FlaskEndpoints(content: string, h: Hit, file: string): (r: seq<Endpoint>)
    ensures var list := SearchFrom(content, MethodsList, Clamp(h.start, |content|));
      Upper(h.first) == "ROUTE" && list.None? ==> r == [Endpoint("GET", h.second, file)]
    ensures var list := SearchFrom(content, MethodsList, Clamp(h.start, |content|));
      Upper(h.first) == "ROUTE" && list.Some? ==> |r| == |Split(list.value.first, ',')|
    ensures Upper(h.first) != "ROUTE" ==> r == [Endpoint(Upper(h.first), h.second, file)]
    ensures forall k :: 0 <= k < |r| ==> r[k].path == h.second && r[k].file == file
  {
    if Upper(h.first) == "ROUTE" then
      match SearchFrom(content, MethodsList, Clamp(h.start, |content|))
      case Some(list) =>
        EndpointsFor(ListedMethods(list.first), h.second, file)
      case None => [Endpoint("GET", h.second, file)]
    else [Endpoint(Upper(h.first), h.second, file)]
  }

  /** A Go route's verb comes from its line, from the last newline before the match up to
      the end of the match. */
  function GoEndpoint(content: string, h: Hit, file: string): (r: seq<Endpoint>)
    ensures |r| == 1 && r[0].file == file
  {
    var lineStart := RFindChar(content, '\n', Clamp(h.start, |content|)) + 1;
    [Endpoint(GoVerb(PySlice(content, lineStart, h.end)), h.second, file)]
  }

  /** The endpoints of a sequence of matches, concatenated in match order. */
  function Collect(hits: seq<Hit>, rule: Rule): (r: seq<Endpoint>)
  {
    if hits == [] then [] else Collect(hits[..|hits| - 1], rule) + rule(hits[|hits| - 1])
  }

  /** Every collected endpoint names the rule's file. */
  lemma {:induction false} CollectNamesFile(hits: seq<Hit>, rule: Rule, file: string)
    requires NamesFile(rule, file)
    ensures forall e :: e in Collect(hits, rule) ==> e.file == file
  {
    if hits != [] {
      CollectNamesFile(hits[..|hits| - 1], rule, file);
    }
  }

  /** A rule with one endpoint per match gives as many endpoints as there are matches. */
  lemma {:induction false} CollectOnePerMatch(hits: seq<Hit>, rule: Rule)
    requires OnePerMatch(rule)
    ensures |Collect(hits, rule)| == |hits|
  {
    if hits != [] {
      CollectOnePerMatch(hits[..|hits| - 1], rule);
    }
  }

  function SpringEndpoints(content: string, file: string): seq<Endpoint> {
    var classPath := ClassPath(content);
    Collect(FindAll(content, SpringMethodMapping, 0), SpringMethodRule(classPath, file))
    + Collect(FindAll(content, RequestMapping, 0), SpringGenericRule(classPath, file))
  }

  /** Flask decorators first, then FastAPI decorators: `@app.get(...)` is seen by both. */
  function PythonEndpoints(content: string, file: string): seq<Endpoint> {
    Collect(FindAll(content, FlaskRoute, 0), FlaskRule(content, file))
    + Collect(FindAll(content, FastApiRoute, 0), VerbRule(file))
  }

  /** `_extract_api_endpoints`, chosen by the lower-cased extension. */
  function Endpoints(content: string, file: string, ext: string): seq<Endpoint> {
    if ext in [".java", ".kt"] then SpringEndpoints(content, file)
    else if ext in [".js", ".ts", ".mjs"] then Collect(FindAll(content, ExpressRoute, 0), VerbRule(file))
    else if ext == ".py" then PythonEndpoints(content, file)
    else if ext == ".go" then Collect(FindAll(content, GoRoute, 0), GoRule(content, file))
    else []
  }

  /** Extensions without an extractor yield no endpoints. */
  lemma OtherExtensionsHaveNoEndpoints(content: string, file: string, ext: string)
    requires ext !in [".java", ".kt", ".js", ".ts", ".mjs", ".py", ".go"]
    ensures Endpoints(content, file, ext) == []
  {
  }

  /** Every endpoint is attributed to the file it was extracted from. */
  lemma EndpointsNameTheirFile(content: string, file: string, ext: string)
    ensures forall e :: e in Endpoints(content, file, ext) ==> e.file == file
  {
    if ext in [".java", ".kt"] {
      var classPath := ClassPath(content);
      CollectNamesFile(FindAll(content, SpringMethodMapping, 0), SpringMethodRule(classPath, file), file);
      CollectNamesFile(FindAll(content, RequestMapping, 0), SpringGenericRule(classPath, file), file);
    } else if ext in [".js", ".ts", ".mjs"] {
      CollectNamesFile(FindAll(content, ExpressRoute, 0), VerbRule(file), file);
    } else if ext == ".py" {
      CollectNamesFile(FindAll(content, FlaskRoute, 0), FlaskRule(content, file), file);
      CollectNamesFile(FindAll(content, FastApiRoute, 0), VerbRule(file), file);
    } else if ext == ".go" {
      CollectNamesFile(FindAll(content, GoRoute, 0), GoRule(content, file), file);
    }
  }

  /** A Go source gives exactly one endpoint per route call. */
  lemma OneEndpointPerGoCall(content: string, file: string)
    ensures |Endpoints(content, file, ".go")| == |FindAll(content, GoRoute, 0)|
  {
    CollectOnePerMatch(FindAll(content, GoRoute, 0), GoRule(content, file));
  }

  /** An Express source gives exactly one endpoint per route call. */
  lemma OneEndpointPerExpressCall(content: string, file: string)
    ensures |Endpoints(content, file, ".js")| == |FindAll(content, ExpressRoute, 0)|
  {
    CollectOnePerMatch(FindAll(content, ExpressRoute, 0), VerbRule(file));
  }

  /** `_extract_api_endpoints` as the source runs it: one pass per pattern, appending the
      endpoints of each match in turn. */
  method ExtractEndpoints(content: string, file: string, ext: string) returns (endpoints: seq<Endpoint>)
    ensures endpoints == Endpoints(content, file, ext)
  {
    endpoints := [];
    if ext in [".java", ".kt"] {
      endpoints := ExtractSpring(content, file);
    } else if ext in [".js", ".ts", ".mjs"] {
      endpoints := AppendMatches([], FindAll(content, ExpressRoute, 0), VerbRule(file));
    } else if ext == ".py" {
      endpoints := ExtractPython(content, file);
    } else if ext == ".go" {
      endpoints := AppendMatches([], FindAll(content, GoRoute, 0), GoRule(content, file));
    }
  }

  method ExtractSpring(content: string, file: string) returns (endpoints: seq<Endpoint>)
    ensures endpoints == SpringEndpoints(content, file)
  {
    var classPath := ClassPath(content);
    var methodHits := FindAll(content, SpringMethodMapping, 0);
    var genericHits := FindAll(content, RequestMapping, 0);
    var methodEndpoints := AppendMatches([], methodHits, SpringMethodRule(classPath, file));
    assert methodEndpoints == Collect(methodHits, SpringMethodRule(classPath, file));
    endpoints := AppendMatches(methodEndpoints, genericHits, SpringGenericRule(classPath, file));
  }

  method ExtractPython(content: string, file: string) returns (endpoints: seq<Endpoint>)
    ensures endpoints == PythonEndpoints(content, file)
  {
    var flaskHits := FindAll(content, FlaskRoute, 0);
    var flask := AppendMatches([], flaskHits, FlaskRule(content, file));
    assert flask == Collect(flaskHits, FlaskRule(content, file));
    endpoints := AppendMatches(flask, FindAll(content, FastApiRoute, 0), VerbRule(file));
  }

  /** One `for match in ...finditer(content)` loop: appends each match's endpoints. */
  method AppendMatches(prefix: seq<Endpoint>, hits: seq<Hit>, rule: Rule) returns (r: seq<Endpoint>)
    ensures r == prefix + Collect(hits, rule)
  {
    r := prefix;
    var i := 0;
    while i < |hits|
      invariant 0 <= i <= |hits|
      invariant r == prefix + Collect(hits[..i], rule)
    {
      assert hits[..i + 1][..i] == hits[..i];
      r := r + rule(hits[i]);
      i := i + 1;
    }
    assert hits[..|hits|] == hits;
  }

  // ---------------------------------------------------------------------------------------------
  // Package and primary type
  // ---------------------------------------------------------------------------------------------

  const JavaPackage := Declaration(["package"], true, true, "")
  const GoPackage := Declaration(["package"], true, false, "")
  const JavaType := Declaration(["class", "interface", "enum", "object"], false, false, "")
  const PythonClass := Declaration(["class"], true, false, "")
  const ScriptClass := Declaration(["class"], false, false, "")
  const GoStruct := Declaration(["type"], false, false, "struct")

  /** `_extract_package`: the first `package` declaration at a line start, for JVM and Go
      sources only. */
  function Package(content: string, ext: string): (r: Option<string>)
    ensures r.Some? ==> ext in [".java", ".kt", ".go"] && r.value != ""
    ensures r.Some? ==> forall k :: 0 <= k < |r.value| ==> IsDottedWordChar(r.value[k])
    ensures ext == ".go" && r.Some? ==> forall k :: 0 <= k < |r.value| ==> IsWordChar(r.value[k])
  {
    var m := if ext in [".java", ".kt"] then Some(JavaPackage) else if ext == ".go" then Some(GoPackage) else None;
    if m.None? then None
    else
      match Search(content, m.value)
      case Some(h) => Some(h.first)
      case None => None
  }

  /** `_extract_primary_class`: the first type declaration the language's pattern finds. */
  function PrimaryClass(content: string, ext: string): (r: Option<string>)
    ensures r.Some? ==> ext in [".java", ".kt", ".py", ".ts", ".js", ".go"]
    ensures r.Some? ==> r.value != "" && forall k :: 0 <= k < |r.value| ==> IsWordChar(r.value[k])
  {
    var m :=
      if ext in [".java", ".kt"] then Some(JavaType)
      else if ext == ".py" then Some(PythonClass)
      else if ext in [".ts", ".js"] then Some(ScriptClass)
      else if ext == ".go" then Some(GoStruct)
      else None;
    if m.None? then None
    else
      match Search(content, m.value)
      case Some(h) => Some(h.first)
      case None => None
  }

}
