/** Build-manifest detection (`_detect_build_system`): the first manifest found directly under
    the repository root decides the build type, and some manifests also yield a capped list of
    dependencies. */
module Build {
  import opened Wrappers
  import opened Text
  import opened Seqs
  import opened Matchers
  import opened Files

  datatype BuildType = Gradle | Maven | Npm | Pip | Go | Cargo | Unknown {
    /** The value stored under the `type` key. */
    function Name(): string {
      match this
      case Gradle => "gradle"
      case Maven => "maven"
      case Npm => "npm"
      case Pip => "pip"
      case Go => "go"
      case Cargo => "cargo"
      case Unknown => "unknown"
    }
  }

  /** One dependency record; only npm and go manifests give a version. */
  datatype Dependency = Dependency(name: string, version: Option<string>, scope: string)

  datatype BuildInfo = BuildInfo(kind: BuildType, dependencies: seq<Dependency>)

  /** What `json.loads` gives for a `package.json`: the entries of its `dependencies` and
      `devDependencies` objects in file order (a missing object reads as empty). */
  datatype PackageJson = PackageJson(dependencies: seq<(string, string)>, devDependencies: seq<(string, string)>)

  /** How a `package.json` text decodes: not JSON at all (`json.JSONDecodeError`, which the
      detection catches), JSON that is not an object or whose `dependencies` or
      `devDependencies` value is not an object (so `.get` or `.items()` raises, which the
      detection does not catch), or a package with its two dependency maps. */
  datatype PackageDecode = NotJson | WrongShape | Decoded(json: PackageJson)

  /** The manifests in the order they are looked for, with the build type each one decides. */
  const Manifests: seq<(string, BuildType)> := [
    ("build.gradle", Gradle), ("build.gradle.kts", Gradle), ("pom.xml", Maven), ("package.json", Npm),
    ("pyproject.toml", Pip), ("setup.py", Pip), ("requirements.txt", Pip), ("Pipfile", Pip),
    ("go.mod", Go), ("Cargo.toml", Cargo)]

  const GradleCap := 50
  const MavenCap := 50
  const NpmCap := 100
  const GoCap := 50

  /** `(?:implementation|api|compile)\s*['"]([^'"]+)['"]` */
  const GradleDependency := Call([Head("implementation", ""), Head("api", ""), Head("compile", "")], false, false)

  // ---------------------------------------------------------------------------------------------
  // Per-manifest dependency lists
  // ---------------------------------------------------------------------------------------------

  /** The quoted coordinate after each `implementation`, `api` or `compile`, the first 50. */
  function GradleDependencies(content: string): (r: seq<Dependency>)
    ensures |r| <= GradleCap
    ensures var hits := FindAll(content, GradleDependency, 0);
      |r| == Min(|hits|, GradleCap)
      && forall k :: 0 <= k < |r| ==> r[k] == Dependency(hits[k].second, None, "compile")
  {
    var hits := FindAll(content, GradleDependency, 0);
    First(seq(|hits|, k requires 0 <= k < |hits| => Dependency(hits[k].second, None, "compile")), GradleCap)
  }

  /** `group:artifact` for each `<groupId>` directly followed by an `<artifactId>`, the first 50. */
  function MavenDependencies(content: string): (r: seq<Dependency>)
    ensures |r| <= MavenCap
    ensures forall k :: 0 <= k < |r| ==> r[k].scope == "compile" && ':' in r[k].name
    ensures var hits := FindAll(content, Coordinates, 0);
      |r| == Min(|hits|, MavenCap)
      && forall k :: 0 <= k < |r| ==> r[k] == Dependency(hits[k].first + ":" + hits[k].second, None, "compile")
  {
    var hits := FindAll(content, Coordinates, 0);
    First(seq(|hits|, k requires 0 <= k < |hits| => Dependency(hits[k].first + ":" + hits[k].second, None, "compile")), MavenCap)
  }

  /** Runtime dependencies then development dependencies, the first 100: a prefix of the
      runtime entries followed by the development entries, each with its name, its version and
      the object it came from as its scope. */
  function NpmDependencies(p: PackageJson): (r: seq<Dependency>)
    ensures |r| <= NpmCap
    ensures |r| == Min(|p.dependencies| + |p.devDependencies|, NpmCap)
    ensures forall k :: 0 <= k < |r| && k < |p.dependencies| ==>
      r[k] == Dependency(p.dependencies[k].0, Some(p.dependencies[k].1), "dependencies")
    ensures forall k :: |p.dependencies| <= k < |r| ==>
      var d := p.devDependencies[k - |p.dependencies|];
      r[k] == Dependency(d.0, Some(d.1), "devDependencies")
  {
    var runtime := seq(|p.dependencies|, k requires 0 <= k < |p.dependencies| =>
      Dependency(p.dependencies[k].0, Some(p.dependencies[k].1), "dependencies"));
    var dev := seq(|p.devDependencies|, k requires 0 <= k < |p.devDependencies| =>
      Dependency(p.devDependencies[k].0, Some(p.devDependencies[k].1), "devDependencies"));
    First(runtime + dev, NpmCap)
  }

  /** Module path and version of each indented `path vX` line of `go.mod`, the first 50. */
  function GoDependencies(content: string): (r: seq<Dependency>)
    ensures |r| <= GoCap
    ensures forall k :: 0 <= k < |r| ==> r[k].scope == "runtime" && r[k].version.Some?
    ensures var hits := FindAll(content, Require, 0);
      |r| == Min(|hits|, GoCap)
      && forall k :: 0 <= k < |r| ==> r[k] == Dependency(hits[k].first, Some(hits[k].second), "runtime")
  {
    var hits := FindAll(content, Require, 0);
    First(seq(|hits|, k requires 0 <= k < |hits| => Dependency(hits[k].first, Some(hits[k].second), "runtime")), GoCap)
  }

  /** An indented `name vversion` line of `go.mod` starts at `i`. */
  predicate RequireLineAt(content: string, i: nat, name: string, version: string) {
    i <= |content| && LineStart(content, i) && RequireAt(content, i).Some?
    && RequireAt(content, i).value.first == name && RequireAt(content, i).value.second == version
  }

  /** Every Go dependency is the module path and the version after `v` of an indented
      `path vX` line: both non-empty and free of white space. */
  lemma GoDependencyLines(content: string)
    ensures var r := GoDependencies(content);
      forall k :: 0 <= k < |r| ==>
        r[k].name != "" && r[k].version.Some? && r[k].version.value != ""
        && (forall j :: 0 <= j < |r[k].name| ==> !IsSpace(r[k].name[j]))
        && (forall j :: 0 <= j < |r[k].version.value| ==> !IsSpace(r[k].version.value[j]))
        && (exists i :: RequireLineAt(content, i, r[k].name, r[k].version.value))
  {
    var r := GoDependencies(content);
    var hits := FindAll(content, Require, 0);
    forall k | 0 <= k < |r|
      ensures r[k].name != "" && r[k].version.Some? && r[k].version.value != ""
      ensures forall j :: 0 <= j < |r[k].name| ==> !IsSpace(r[k].name[j])
      ensures forall j :: 0 <= j < |r[k].version.value| ==> !IsSpace(r[k].version.value[j])
      ensures RequireLineAt(content, hits[k].start, r[k].name, r[k].version.value)
    {
      var h := hits[k];
      assert r[k] == Dependency(h.first, Some(h.second), "runtime");
      assert MatchAt(content, h.start, Require) == Some(h);
      assert RequireAt(content, h.start) == Some(h);
    }
  }

  // ---------------------------------------------------------------------------------------------
  // requirements.txt
  // ---------------------------------------------------------------------------------------------

  /** The characters of the class `[>=<!\[]` that end a requirement's name. */
  predicate IsSpecifierChar(c: char) {
    c == '>' || c == '=' || c == '<' || c == '!' || c == '['
  }

  /** The name a `requirements.txt` line declares: none for blank lines, comments and option
      lines (`-r`, `-e`, ...), else the stripped text before the first specifier character,
      when that is not empty. */
  function RequirementName(line: string): Option<string> {
    var l := Strip(line);
    if l == "" || l[0] == '#' || l[0] == '-' then None
    else
      var name := Strip(l[..FirstWhere(l, IsSpecifierChar)]);
      if name == "" then None else Some(name)
  }

  /** The dependencies a sequence of lines declares, in order (no cap). */
  function Requirements(lines: seq<string>): seq<Dependency> {
    if lines == [] then []
    else
      Requirements(lines[..|lines| - 1]) +
      match RequirementName(lines[|lines| - 1])
      case Some(name) => [Dependency(name, None, "runtime")]
      case None => []
  }

  /** The loop over `content.splitlines()` that collects `requirements.txt` dependencies. */
  method ParseRequirements(content: string) returns (deps: seq<Dependency>)
    ensures deps == Requirements(SplitLines(content))
  {
    var lines := SplitLines(content);
    deps := [];
    var i := 0;
    while i < |lines|
      invariant i <= |lines|
      invariant deps == Requirements(lines[..i])
    {
      assert lines[..i + 1][..i] == lines[..i];
      var line := Strip(lines[i]);
      if line != "" && line[0] != '#' && line[0] != '-' {
        var name := Strip(line[..FirstWhere(line, IsSpecifierChar)]);
        if name != "" {
          deps := deps + [Dependency(name, None, "runtime")];
        }
      }
      i := i + 1;
    }
    assert lines[..|lines|] == lines;
  }

  /** A stripped string that starts with a non-space character keeps that character first. */
  lemma StripKeepsFirst(s: string)
    requires s != "" && !IsSpace(s[0])
    ensures Strip(s) != "" && Strip(s)[0] == s[0]
  {
    assert StripLeft(s) == s;
    StripRightShape(s);
  }

  /** A declared name is never empty, contains no specifier character and cannot be read as a
      comment or an option line. */
  lemma RequirementNameWellFormed(line: string)
    ensures RequirementName(line).Some? ==>
      var name := RequirementName(line).value;
      name != "" && name[0] != '#' && name[0] != '-'
      && forall k :: 0 <= k < |name| ==> !IsSpecifierChar(name[k])
  {
    var l := Strip(line);
    if RequirementName(line).Some? {
      StripProperties(line);
      var i := FirstWhere(l, IsSpecifierChar);
      assert i > 0;
      StripKeepsFirst(l[..i]);
      var name := Strip(l[..i]);
      StripProperties(l[..i]);
      forall k | 0 <= k < |name| ensures !IsSpecifierChar(name[k]) {
        var j :| OccursAt(l[..i], name, j);
        assert name[k] == l[..i][j + k];
      }
    }
  }

  /** Every collected dependency is well formed, and there is at most one per line. */
  lemma {:induction false} RequirementsWellFormed(lines: seq<string>)
    ensures |Requirements(lines)| <= |lines|
    ensures forall d :: d in Requirements(lines) ==>
      d.name != "" && d.name[0] != '#' && d.name[0] != '-' && d.scope == "runtime"
      && forall k :: 0 <= k < |d.name| ==> !IsSpecifierChar(d.name[k])
  {
    if lines != [] {
      RequirementsWellFormed(lines[..|lines| - 1]);
      RequirementNameWellFormed(lines[|lines| - 1]);
    }
  }

  // ---------------------------------------------------------------------------------------------
  // Detection
  // ---------------------------------------------------------------------------------------------

  /** The requirements declared by the text of `requirements.txt`. */
  function RequirementsText(content: string): seq<Dependency> {
    Requirements(SplitLines(content))
  }

  /** Dependencies parsed from a manifest's text, none when it cannot be read. */
  function FromText(text: Option<string>, parse: string -> seq<Dependency>): seq<Dependency> {
    match text
    case Some(t) => parse(t)
    case None => []
  }

  /** The npm dependencies of a readable `package.json`: none when it cannot be read or is
      not JSON, a failure (`None`) when it is JSON of the wrong shape. */
  function NpmFromText(text: Option<string>, decode: string -> PackageDecode): (r: Option<seq<Dependency>>)
    ensures r.None? <==> text.Some? && decode(text.value).WrongShape?
    ensures r.Some? ==> |r.value| <= NpmCap
    ensures text.Some? && decode(text.value).Decoded? ==> r == Some(NpmDependencies(decode(text.value).json))
    ensures text.None? || decode(text.value).NotJson? ==> r == Some([])
  {
    match text
    case None => Some([])
    case Some(t) =>
      match decode(t)
      case Decoded(p) => Some(NpmDependencies(p))
      case NotJson => Some([])
      case WrongShape => None
  }

  /** The build type the manifests present decide. */
  function BuildKind(entries: seq<FsEntry>): BuildType {
    if Exists(entries, "build.gradle") || Exists(entries, "build.gradle.kts") then Gradle
    else if Exists(entries, "pom.xml") then Maven
    else if Exists(entries, "package.json") then Npm
    else if Exists(entries, "pyproject.toml") || Exists(entries, "setup.py")
      || Exists(entries, "requirements.txt") || Exists(entries, "Pipfile") then Pip
    else if Exists(entries, "go.mod") then Go
    else if Exists(entries, "Cargo.toml") then Cargo
    else Unknown
  }

  /** The detection raises: `package.json` decides the build type, reads, and is JSON of the
      wrong shape. */
  predicate NpmFails(entries: seq<FsEntry>, decode: string -> PackageDecode) {
    BuildKind(entries) == Npm && ReadRoot(entries, "package.json").Some?
    && decode(ReadRoot(entries, "package.json").value).WrongShape?
  }

  /** `_detect_build_system`; `decode` stands for `json.loads`, and `None` is the exception
      that escapes it. */
  function DetectBuild(entries: seq<FsEntry>, decode: string -> PackageDecode): (r: Option<BuildInfo>)
    ensures r.None? <==> NpmFails(entries, decode)
    ensures r.Some? ==> r.value.kind == BuildKind(entries)
  {
    if Exists(entries, "build.gradle") then
      Some(BuildInfo(Gradle, FromText(ReadRoot(entries, "build.gradle"), GradleDependencies)))
    else if Exists(entries, "build.gradle.kts") then
      Some(BuildInfo(Gradle, FromText(ReadRoot(entries, "build.gradle.kts"), GradleDependencies)))
    else if Exists(entries, "pom.xml") then
      Some(BuildInfo(Maven, FromText(ReadRoot(entries, "pom.xml"), MavenDependencies)))
    else if Exists(entries, "package.json") then
      (match NpmFromText(ReadRoot(entries, "package.json"), decode)
       case Some(deps) => Some(BuildInfo(Npm, deps))
       case None => None)
    else if Exists(entries, "pyproject.toml") || Exists(entries, "setup.py") then
      Some(BuildInfo(Pip, []))
    else if Exists(entries, "requirements.txt") then
      Some(BuildInfo(Pip, FromText(ReadRoot(entries, "requirements.txt"), RequirementsText)))
    else if Exists(entries, "Pipfile") then
      Some(BuildInfo(Pip, []))
    else if Exists(entries, "go.mod") then
      Some(BuildInfo(Go, FromText(ReadRoot(entries, "go.mod"), GoDependencies)))
    else if Exists(entries, "Cargo.toml") then
      Some(BuildInfo(Cargo, []))
    else
      Some(BuildInfo(Unknown, []))
  }

  /** The manifest table, entry by entry. */
  lemma ManifestNames()
    ensures |Manifests| == 10
    ensures Manifests[0].0 == "build.gradle" && Manifests[1].0 == "build.gradle.kts"
    ensures Manifests[2].0 == "pom.xml" && Manifests[3].0 == "package.json"
    ensures Manifests[4].0 == "pyproject.toml" && Manifests[5].0 == "setup.py"
    ensures Manifests[6].0 == "requirements.txt" && Manifests[7].0 == "Pipfile"
    ensures Manifests[8].0 == "go.mod" && Manifests[9].0 == "Cargo.toml"
  {
  }

  /** The build type is "unknown" exactly when no manifest exists. */
  lemma UnknownIffNoManifest(entries: seq<FsEntry>)
    ensures BuildKind(entries) == Unknown <==>
      forall j :: 0 <= j < |Manifests| ==> !Exists(entries, Manifests[j].0)
  {
    ManifestNames();
  }

  /** The first manifest that exists decides the build type. */
  lemma FirstManifestDecides(entries: seq<FsEntry>, k: nat)
    requires k < |Manifests| && Exists(entries, Manifests[k].0)
    requires forall j :: 0 <= j < k ==> !Exists(entries, Manifests[j].0)
    ensures BuildKind(entries) == Manifests[k].1
  {
    ManifestNames();
  }

  /** The build type is the one of the first manifest that exists in the fixed order, and
      "unknown" exactly when none does. */
  lemma BuildIsFirstManifest(entries: seq<FsEntry>, k: nat)
    requires k < |Manifests|
    ensures BuildKind(entries) == Unknown <==>
      forall j :: 0 <= j < |Manifests| ==> !Exists(entries, Manifests[j].0)
    ensures Exists(entries, Manifests[k].0) && (forall j :: 0 <= j < k ==> !Exists(entries, Manifests[j].0)) ==>
      BuildKind(entries) == Manifests[k].1
  {
    UnknownIffNoManifest(entries);
    if Exists(entries, Manifests[k].0) && (forall j :: 0 <= j < k ==> !Exists(entries, Manifests[j].0)) {
      FirstManifestDecides(entries, k);
    }
  }

  /** Dependency caps: 50 for gradle, maven and go, 100 for npm; a cargo project and an
      unknown one list none, and a pip project lists some only when `requirements.txt` is the
      first Python manifest found. */
  lemma DependencyCaps(entries: seq<FsEntry>, decode: string -> PackageDecode)
    ensures DetectBuild(entries, decode).Some? ==> var b := DetectBuild(entries, decode).value;
      (b.kind in {Gradle, Maven, Go} ==> |b.dependencies| <= 50)
      && (b.kind == Npm ==> |b.dependencies| <= 100)
      && (b.kind in {Cargo, Unknown} ==> b.dependencies == [])
      && (b.kind == Pip && b.dependencies != [] ==>
            !Exists(entries, "pyproject.toml") && !Exists(entries, "setup.py")
            && Exists(entries, "requirements.txt"))
  {
  }
}
