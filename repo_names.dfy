/** How the cache manager turns a Git URL into the name of the directory it clones into: the
    URL is stripped of white space, trailing slashes and a `.git` suffix; an SSH URL
    (`git@host:org/name`) gives its last `/`- and `:`-separated part, any other URL the last
    segment of the path `urllib.parse.urlparse` finds; the name keeps only the characters
    `[a-zA-Z0-9_.-]`, and falls back to `unknown-repo`. */
module RepoNames {
  import opened Wrappers
  import opened Text

  // ---------------------------------------------------------------------------------------------
  // The path component as `urllib.parse.urlparse` computes it
  // ---------------------------------------------------------------------------------------------

  /** The characters `urlsplit` strips from the front of a URL (the WHATWG "C0 control or space"). */
  predicate IsControlOrSpace(c: char) {
    c as int <= 32
  }

  /** The characters `urlsplit` deletes anywhere in a URL. */
  predicate IsUnsafeUrlChar(c: char) {
    c == '\t' || c == '\r' || c == '\n'
  }

  predicate IsSchemeChar(c: char) {
    IsAsciiLetter(c) || IsDigit(c) || c == '+' || c == '-' || c == '.'
  }

  predicate IsNetlocEnd(c: char) {
    c == '/' || c == '?' || c == '#'
  }

  predicate IsPathEnd(c: char) {
    c == '?' || c == '#'
  }

  predicate IsKeptUrlChar(c: char) {
    !IsUnsafeUrlChar(c)
  }

  /** The URL after the clean-up `urlsplit` does before parsing: no leading control or space
      characters and no tab, carriage return or line feed. */
  function CleanUrl(url: string): string {
    Filter(TrimLeft(url, IsControlOrSpace), IsKeptUrlChar)
  }

  /** The index of the `:` that ends the scheme: the first `:`, when it is not the first
      character, the URL starts with an ASCII letter and everything before it is a scheme
      character. */
  function SchemeEnd(u: string): (r: Option<nat>)
    ensures r.Some? ==> 0 < r.value < |u| && u[r.value] == ':' && ':' !in u[..r.value]
    ensures r.Some? ==> forall k :: 0 <= k < r.value ==> IsSchemeChar(u[k])
  {
    var i := IndexOfChar(u, ':');
    if i > 0 && IsAsciiLetter(u[0]) && forall k :: 0 <= k < i ==> IsSchemeChar(u[k]) then Some(i)
    else None
  }

  /** The scheme, lower-cased, or "" when there is none. */
  function SchemeOf(u: string): string {
    match SchemeEnd(u)
    case Some(i) => Lower(u[..i])
    case None => ""
  }

  /** What follows the scheme and its colon. */
  function AfterScheme(u: string): (r: string)
    ensures EndsWith(u, r)
  {
    match SchemeEnd(u)
    case Some(i) => u[i + 1..]
    case None => u
  }

  /** Drops the network location: after a leading `//`, everything up to the first `/`, `?` or `#`. */
  function AfterNetloc(rest: string): (r: string)
    ensures EndsWith(rest, r)
  {
    if |rest| >= 2 && rest[..2] == "//" then rest[2 + FirstWhere(rest[2..], IsNetlocEnd)..] else rest
  }

  /** The schemes whose paths carry `;` parameters (`urllib.parse.uses_params`). */
  const UsesParams: set<string> := {"", "ftp", "hdl", "prospero", "http", "imap", "https", "shttp",
                                    "rtsp", "rtsps", "rtspu", "sip", "sips", "mms", "sftp", "tel"}

  /** Cuts the parameters off a path: at the first `;` after the last `/`, or at the first `;`
      when there is no `/`. */
  function WithoutParams(path: string): (r: string)
    ensures StartsWith(path, r)
  {
    var slash := RIndexOfChar(path, '/');
    var i := if slash >= 0 then FindFrom(path, ";", slash) else IndexOfChar(path, ';');
    if i < 0 then path else path[..i]
  }

  /** The path ends at the query (`?`) or the fragment (`#`). */
  function QueryCut(rest: string): (r: string)
    ensures StartsWith(rest, r) && forall k :: 0 <= k < |r| ==> !IsPathEnd(r[k])
  {
    rest[..FirstWhere(rest, IsPathEnd)]
  }

  /** Parameters are cut off only for the schemes that use them, and only when there is a `;`. */
  function ParamsCut(scheme: string, path: string): (r: string)
    ensures StartsWith(path, r)
  {
    if scheme in UsesParams && ';' in path then WithoutParams(path) else path
  }

  /** The path of a URL that has been cleaned up. */
  function PathOfClean(u: string): (r: string)
    ensures forall k :: 0 <= k < |r| ==> !IsPathEnd(r[k])
  {
    var path := QueryCut(AfterNetloc(AfterScheme(u)));
    var r := ParamsCut(SchemeOf(u), path);
    assert forall k :: 0 <= k < |r| ==> r[k] == path[k];
    r
  }

  /** `urlparse(url).path`. */
  function UrlPath(url: string): (r: string)
    ensures forall k :: 0 <= k < |r| ==> !IsPathEnd(r[k])
  {
    PathOfClean(CleanUrl(url))
  }

  // ---------------------------------------------------------------------------------------------
  // `_extract_repo_name`
  // ---------------------------------------------------------------------------------------------

  /** The characters a repository directory name keeps (`[a-zA-Z0-9_\-.]`). */
  predicate IsSafeChar(c: char) {
    IsAsciiLetter(c) || IsDigit(c) || c == '_' || c == '-' || c == '.'
  }

  const UnknownRepo: string := "unknown-repo"

  predicate IsSlash(c: char) {
    c == '/'
  }

  /** The URL stripped of white space and trailing slashes, then of one `.git` suffix. */
  function Trimmed(url: string): string {
    var u := TrimRight(Strip(url), IsSlash);
    if EndsWith(u, ".git") then u[..|u| - 4] else u
  }

  /** The name before sanitizing: the last `/`- then `:`-separated part of an SSH URL, and the
      last segment of any other URL's path. */
  function RawName(u: string): string {
    if StartsWith(u, "git@") then LastPart(LastPart(u, '/'), ':')
    else LastPart(TrimRight(TrimLeft(UrlPath(u), IsSlash), IsSlash), '/')
  }

  /** The directory name for a repository URL: never empty, and made only of safe characters,
      so it holds no path separator. */
  function ExtractRepoName(url: string): (r: string)
    ensures r != "" && forall k :: 0 <= k < |r| ==> IsSafeChar(r[k])
  {
    var safe := Filter(RawName(Trimmed(url)), IsSafeChar);
    if safe == "" then UnknownRepoIsSafe(); UnknownRepo
    else safe
  }

  lemma UnknownRepoIsSafe()
    ensures UnknownRepo != "" && forall k :: 0 <= k < |UnknownRepo| ==> IsSafeChar(UnknownRepo[k])
  {
    forall k | 0 <= k < |UnknownRepo| ensures IsSafeChar(UnknownRepo[k]) {
      assert UnknownRepo[k] in "abcdefghijklmnopqrstuvwxyz-";
    }
  }

  /** `get_repo_path`: `repos_dir / name`. The name is a single path component, so the path is
      one level below the repositories directory, except that `pathlib` drops a `.` component:
      for the name `.` the path is the repositories directory itself. */
  function RepoPath(reposDir: string, url: string): (r: string)
    ensures ExtractRepoName(url) == "." ==> r == reposDir
    ensures ExtractRepoName(url) != "." ==>
      StartsWith(r, reposDir + "/") && r[|reposDir| + 1..] == ExtractRepoName(url) && '/' !in r[|reposDir| + 1..]
  {
    var name := ExtractRepoName(url);
    SafeNameHasNoSeparators(name);
    if name == "." then reposDir
    else
      assert (reposDir + "/" + name)[|reposDir| + 1..] == name;
      reposDir + "/" + name
  }

  /** The safe characters include `.`, so an `https://host/<dirs>/.` or `https://host/<dirs>/..`
      URL names the repository `.` or `..` (`https://h/o/.` gives `.`), and for `.` the checkout
      path is the repositories directory itself. */
  lemma DotSegmentNames(reposDir: string, host: string, dirs: string, n: string)
    requires HttpsParts(host, dirs) && (n == "." || n == "..")
    ensures ExtractRepoName("https://" + host + dirs + "/" + n) == n
    ensures n == "." ==> RepoPath(reposDir, "https://" + host + dirs + "/" + n) == reposDir
  {
    assert AllSafe(n) && !EndsWith(n, ".git");
    HttpsUrlName("", host, dirs, n, "", "");
    Unpadded(host, dirs, n);
  }

  lemma Unpadded(host: string, dirs: string, n: string)
    ensures "" + "https://" + host + dirs + "/" + n + "" + "" == "https://" + host + dirs + "/" + n
  {
    var x := "https://" + host + dirs + "/" + n;
    assert x + "" == x;
    assert "" + "https://" == "https://";
  }

  /** The checkout name with `.` and `..` treated like an empty name: a name that is always a
      proper child of the repositories directory, and otherwise the name `_extract_repo_name`
      gives. */
  function CheckoutName(url: string): (r: string)
    ensures r != "" && AllSafe(r) && r != "." && r != ".."
    ensures ExtractRepoName(url) != "." && ExtractRepoName(url) != ".." ==> r == ExtractRepoName(url)
  {
    var name := ExtractRepoName(url);
    if name == "." || name == ".." then UnknownRepoIsSafe(); UnknownRepo
    else name
  }

  /** The checkout path from `CheckoutName`: always exactly one component below the
      repositories directory, and never `.` or `..`. */
  function CheckoutPath(reposDir: string, url: string): (r: string)
    ensures StartsWith(r, reposDir + "/")
    ensures var c := r[|reposDir| + 1..]; c != "" && '/' !in c && c != "." && c != ".."
  {
    var name := CheckoutName(url);
    SafeNameHasNoSeparators(name);
    assert (reposDir + "/" + name)[|reposDir| + 1..] == name;
    reposDir + "/" + name
  }

  // ---------------------------------------------------------------------------------------------
  // Facts the name cases rest on
  // ---------------------------------------------------------------------------------------------

  /** No character of `s` satisfies `bad`. */
  predicate Avoids(s: string, bad: char -> bool) {
    forall k :: 0 <= k < |s| ==> !bad(s[k])
  }

  predicate AllSafe(s: string) {
    forall k :: 0 <= k < |s| ==> IsSafeChar(s[k])
  }

  lemma {:induction false} FilterKeepsAll(s: string, keep: char -> bool)
    requires forall k :: 0 <= k < |s| ==> keep(s[k])
    ensures Filter(s, keep) == s
    decreases |s|
  {
    if s != [] {
      FilterKeepsAll(s[1..], keep);
      assert [s[0]] + s[1..] == s;
    }
  }

  /** `find` of a character lands just past a prefix that does not hold it. */
  lemma {:induction false} IndexAfterPrefix(p: string, c: char, rest: string)
    requires c !in p
    ensures IndexOfChar(p + [c] + rest, c) == |p|
    decreases |p|
  {
    if p != [] {
      assert (p + [c] + rest)[1..] == p[1..] + [c] + rest;
      IndexAfterPrefix(p[1..], c, rest);
    }
  }

  /** The first character satisfying `stop` is the first character of `rest`, after a prefix
      that avoids it. */
  lemma {:induction false} FirstWhereAfter(p: string, rest: string, stop: char -> bool)
    requires Avoids(p, stop) && (rest == [] || stop(rest[0]))
    ensures FirstWhere(p + rest, stop) == |p|
    decreases |p|
  {
    if p == [] {
      assert p + rest == rest;
    } else {
      assert (p + rest)[1..] == p[1..] + rest;
      FirstWhereAfter(p[1..], rest, stop);
    }
  }

  lemma {:induction false} StripLeftPadded(lead: string, x: string)
    requires IsBlank(lead) && x != [] && !IsSpace(x[0])
    ensures StripLeft(lead + x) == x
    decreases |lead|
  {
    if lead == [] {
      assert lead + x == x;
    } else {
      assert (lead + x)[1..] == lead[1..] + x;
      StripLeftPadded(lead[1..], x);
    }
  }

  lemma {:induction false} StripRightPadded(x: string, trail: string)
    requires IsBlank(trail) && x != [] && !IsSpace(x[|x| - 1])
    ensures StripRight(x + trail) == x
    decreases |trail|
  {
    if trail == [] {
      assert x + trail == x;
    } else {
      var t := trail[..|trail| - 1];
      assert (x + trail)[..|x + trail| - 1] == x + t;
      StripRightPadded(x, t);
    }
  }

  /** Surrounding white space is what `strip` removes. */
  lemma StripPadded(lead: string, x: string, trail: string)
    requires IsBlank(lead) && IsBlank(trail)
    requires x != [] && !IsSpace(x[0]) && !IsSpace(x[|x| - 1])
    ensures Strip(lead + x + trail) == x
  {
    assert lead + x + trail == lead + (x + trail);
    StripLeftPadded(lead, x + trail);
    StripRightPadded(x, trail);
  }

  /** Every suffix of `s` free of `sep` is a suffix of `s.split(sep)[-1]`. */
  lemma LastPartCovers(s: string, sep: char, k: nat)
    requires k <= |s| && sep !in s[k..]
    ensures |LastPart(s, sep)| >= |s| - k
  {
    forall j | k <= j < |s| ensures s[j] != sep {
      assert s[j] == s[k..][j - k];
    }
  }

  /** The last part of `s.split(sep)` is `n` when `s` is `n` or ends with `sep` followed by `n`. */
  lemma LastPartIs(s: string, sep: char, n: string)
    requires sep !in n
    requires s == n || EndsWith(s, [sep] + n)
    ensures LastPart(s, sep) == n
  {
    var r := LastPart(s, sep);
    assert s[|s| - |n|..] == n;
    LastPartCovers(s, sep, |s| - |n|);
    forall j | |s| - |r| <= j < |s| ensures s[j] != sep {
      assert s[j] == r[j - (|s| - |r|)];
    }
    if s != n {
      assert s[|s| - |n| - 1..][0] == sep;
    }
    assert r == s[|s| - |r|..];
  }

  /** The start of `Trimmed`: a URL padded with white space, with `.git`, a trailing slash or
      nothing after its last name character, comes back without any of them. */
  lemma TrimmedPadded(lead: string, x: string, tail: string, trail: string)
    requires IsBlank(lead) && IsBlank(trail)
    requires x != [] && !IsSpace(x[0]) && IsSafeChar(x[|x| - 1])
    requires tail == ".git" || ((tail == "" || tail == "/") && !EndsWith(x, ".git"))
    ensures Trimmed(lead + x + tail + trail) == x
  {
    var core := x + tail;
    assert core[0] == x[0];
    assert lead + x + tail + trail == lead + core + trail;
    StripPadded(lead, core, trail);
    var u := TrimSlashes(x, tail);
    if tail == ".git" {
      assert u[..|u| - 4] == x;
    }
  }

  /** Trailing slashes after a name that ends in a safe character: the one `/` goes, a `.git`
      stays. */
  lemma TrimSlashes(x: string, tail: string) returns (u: string)
    requires x != [] && IsSafeChar(x[|x| - 1]) && (tail == ".git" || tail == "" || tail == "/")
    ensures u == TrimRight(x + tail, IsSlash)
    ensures u == if tail == "/" then x else x + tail
  {
    u := TrimRight(x + tail, IsSlash);
    if tail == "/" {
      assert (x + tail)[..|x|] == x;
      assert TrimRight(x + tail, IsSlash) == TrimRight(x, IsSlash);
    }
  }

  /** A safe character is none of the separators a URL is cut at. */
  lemma SafeCharIsPlain(c: char)
    requires IsSafeChar(c)
    ensures !IsSlash(c) && c != ':' && c != ';' && !IsPathEnd(c) && !IsNetlocEnd(c) && !IsUnsafeUrlChar(c)
  {
  }

  /** A name made of safe characters holds neither `/` nor `:`. */
  lemma SafeNameHasNoSeparators(n: string)
    requires AllSafe(n)
    ensures Avoids(n, IsNetlocEnd) && Avoids(n, IsPathEnd) && Avoids(n, IsUnsafeUrlChar)
    ensures '/' !in n && ':' !in n && ';' !in n
  {
    forall k | 0 <= k < |n| ensures n[k] != '/' && n[k] != ':' && n[k] != ';' && !IsNetlocEnd(n[k])
      && !IsPathEnd(n[k]) && !IsUnsafeUrlChar(n[k])
    {
      SafeCharIsPlain(n[k]);
    }
  }

  /** A name ends with `.git` exactly when `<anything>/<name>` or `<anything>:<name>` does. */
  lemma GitSuffixOfName(p: string, sep: char, n: string)
    requires n != [] && AllSafe(n) && (sep == '/' || sep == ':')
    ensures EndsWith(p + [sep] + n, ".git") <==> EndsWith(n, ".git")
  {
    var x := p + [sep] + n;
    assert x[|x| - |n|..] == n;
    if |n| >= 4 {
      assert x[|x| - 4..] == n[|n| - 4..];
    } else {
      assert x[|x| - |n| - 1] == sep;
    }
  }

  // ---------------------------------------------------------------------------------------------
  // The name cases
  // ---------------------------------------------------------------------------------------------

  predicate IsHostStop(c: char) {
    IsNetlocEnd(c) || IsUnsafeUrlChar(c)
  }

  predicate IsPathStop(c: char) {
    IsPathEnd(c) || IsUnsafeUrlChar(c) || c == ';'
  }

  /** A host and a path that `urlsplit` keeps apart: the host holds no `/`, `?`, `#`, tab or line
      break, and the path, empty or starting with `/`, holds no `?`, `#`, `;`, tab or line break. */
  predicate HttpsParts(host: string, path: string) {
    Avoids(host, IsHostStop) && Avoids(path, IsPathStop) && (path == "" || path[0] == '/')
  }

  /** `urlsplit` finds the scheme `https` in `https:...`. */
  lemma HttpsScheme(rest: string)
    ensures SchemeOf("https:" + rest) == "https" && AfterScheme("https:" + rest) == rest
  {
    var u := "https:" + rest;
    assert u == "https" + [':'] + rest;
    IndexAfterPrefix("https", ':', rest);
    assert u[..5] == "https";
    assert u[6..] == rest;
  }

  /** After `//`, the network location runs to the `/` that starts the path. */
  lemma NetlocEndsAtPath(host: string, path: string)
    requires Avoids(host, IsHostStop) && (path == "" || path[0] == '/')
    ensures AfterNetloc("//" + host + path) == path
  {
    var rest := "//" + host + path;
    assert rest[..2] == "//";
    assert rest[2..] == host + path;
    FirstWhereAfter(host, path, IsNetlocEnd);
    assert rest[2 + |host|..] == path;
  }

  /** An `https:` URL has no leading control or space character to strip. */
  lemma HttpsStartsPlain(rest: string)
    ensures TrimLeft("https://" + rest, IsControlOrSpace) == "https://" + rest
  {
    assert ("https://" + rest)[0] == 'h';
  }

  /** Nothing in an `https://host/path` URL is removed by `urlsplit`'s clean-up. */
  lemma CleanHttpsUrl(host: string, path: string)
    requires HttpsParts(host, path)
    ensures CleanUrl("https://" + host + path) == "https://" + host + path
  {
    var rest := host + path;
    assert "https://" + host + path == "https://" + rest;
    HttpsStartsPlain(rest);
    AvoidsAppend(host, path, IsUnsafeUrlChar);
    HttpsPrefixIsPlain();
    AvoidsAppend("https://", rest, IsUnsafeUrlChar);
    CleanKeeps("https://" + rest);
  }

  lemma HttpsPrefixIsPlain()
    ensures Avoids("https://", IsUnsafeUrlChar)
  {
  }

  lemma AvoidsAppend(a: string, b: string, bad: char -> bool)
    requires Avoids(a, bad) && Avoids(b, bad)
    ensures Avoids(a + b, bad)
  {
    forall k | 0 <= k < |a + b| ensures !bad((a + b)[k]) {
      if k >= |a| {
        assert (a + b)[k] == b[k - |a|];
      }
    }
  }

  /** A URL that starts with neither a control character nor a space and holds no tab or line
      break is left as it is by the clean-up. */
  lemma CleanKeeps(u: string)
    requires TrimLeft(u, IsControlOrSpace) == u && Avoids(u, IsUnsafeUrlChar)
    ensures CleanUrl(u) == u
  {
    FilterKeepsAll(u, IsKeptUrlChar);
  }

  /** A path free of `?`, `#` and `;` is kept whole. */
  lemma PlainPathKept(scheme: string, path: string)
    requires Avoids(path, IsPathStop)
    ensures ParamsCut(scheme, QueryCut(path)) == path
  {
    FirstWhereAfter(path, "", IsPathEnd);
    assert path + "" == path;
    assert QueryCut(path) == path;
    assert ';' !in path;
  }

  /** The path of a clean `https://host/...` URL is what follows the host. */
  lemma PathOfCleanHttps(host: string, path: string)
    requires HttpsParts(host, path)
    ensures PathOfClean("https://" + host + path) == path
  {
    var rest := "//" + host + path;
    assert "https://" + host + path == "https:" + rest;
    HttpsScheme(rest);
    NetlocEndsAtPath(host, path);
    PlainPathKept("https", path);
  }

  /** `urlparse` gives an `https://host/...` URL the path after the host. */
  lemma UrlPathOfHttps(host: string, path: string)
    requires HttpsParts(host, path)
    ensures UrlPath("https://" + host + path) == path
  {
    CleanHttpsUrl(host, path);
    PathOfCleanHttps(host, path);
  }

  /** Appending `/<name>` to a path keeps it one `urlsplit` leaves whole. */
  lemma NamePathIsPlain(host: string, dirs: string, n: string)
    requires HttpsParts(host, dirs) && AllSafe(n)
    ensures HttpsParts(host, dirs + "/" + n)
  {
    var path := dirs + "/" + n;
    forall k | 0 <= k < |path| ensures !IsPathStop(path[k]) {
      if k > |dirs| {
        assert path[k] == n[k - |dirs| - 1];
        SafeCharIsPlain(n[k - |dirs| - 1]);
      }
    }
  }

  /** Stripping the leading slashes of a path that ends with `/<name>` leaves `<name>` or
      something ending in `/<name>`. */
  lemma TrimLeftKeepsName(path: string, n: string)
    requires n != [] && AllSafe(n) && EndsWith(path, "/" + n)
    ensures var p := TrimLeft(path, IsSlash); p == n || EndsWith(p, "/" + n)
  {
    var p := TrimLeft(path, IsSlash);
    var j := |path| - |n|;
    assert path[j] == n[0];
    SafeCharIsPlain(n[0]);
    TrimLeftKeepsFrom(path, IsSlash, j);
    if |p| > |n| {
      SuffixOfSuffix(path, p, "/" + n);
    } else {
      EndsWithTail(path, "/", n);
      SuffixOfSuffix(path, p, n);
    }
  }

  /** `lstrip` stops at the first character it does not drop. */
  lemma TrimLeftKeepsFrom(s: string, drop: char -> bool, j: nat)
    requires j < |s| && !drop(s[j])
    ensures |TrimLeft(s, drop)| >= |s| - j
  {
  }

  /** A text that ends with `a + b` ends with `b`. */
  lemma EndsWithTail(s: string, a: string, b: string)
    requires EndsWith(s, a + b)
    ensures EndsWith(s, b)
  {
    assert s[|s| - |b|..] == s[|s| - |a + b|..][|a|..];
  }

  /** Of two suffixes of the same string, the longer ends with the shorter. */
  lemma SuffixOfSuffix(s: string, p: string, t: string)
    requires EndsWith(s, p) && EndsWith(s, t) && |p| >= |t|
    ensures EndsWith(p, t)
  {
    assert p[|p| - |t|..] == s[|s| - |t|..];
  }

  /** The last segment of `<dirs>/<name>`, with leading and trailing slashes stripped, is `<name>`. */
  lemma LastSegment(dirs: string, n: string)
    requires n != [] && AllSafe(n)
    ensures LastPart(TrimRight(TrimLeft(dirs + "/" + n, IsSlash), IsSlash), '/') == n
  {
    var p := TrimLeft(dirs + "/" + n, IsSlash);
    assert EndsWith(dirs + "/" + n, "/" + n);
    TrimLeftKeepsName(dirs + "/" + n, n);
    SafeNameHasNoSeparators(n);
    assert p[|p| - 1] == n[|n| - 1];
    SafeCharIsPlain(n[|n| - 1]);
    assert TrimRight(p, IsSlash) == p;
    LastPartIs(p, '/', n);
  }

  /** The name before sanitizing of `https://host/<dirs>/<name>` is `<name>`. */
  lemma HttpsRawName(host: string, dirs: string, n: string)
    requires HttpsParts(host, dirs)
    requires n != "" && AllSafe(n)
    ensures RawName("https://" + host + (dirs + "/" + n)) == n
  {
    var path := dirs + "/" + n;
    HttpsIsNotSsh(host + path);
    assert "https://" + (host + path) == "https://" + host + path;
    NotSshName("https://" + host + path);
    NamePathIsPlain(host, dirs, n);
    UrlPathOfHttps(host, path);
    LastSegment(dirs, n);
  }

  /** An `https:` URL does not start like an SSH one. */
  lemma HttpsIsNotSsh(rest: string)
    ensures !StartsWith("https://" + rest, "git@")
  {
    assert ("https://" + rest)[0] == 'h';
  }

  /** A URL that does not start with `git@` is named by the last segment of its path. */
  lemma NotSshName(u: string)
    requires !StartsWith(u, "git@")
    ensures RawName(u) == LastPart(TrimRight(TrimLeft(UrlPath(u), IsSlash), IsSlash), '/')
  {
  }

  /** The name before sanitizing of `git@host/<name>` or `git@host:<name>` is `<name>`. */
  lemma SshRawName(host: string, sep: char, n: string)
    requires sep == '/' || sep == ':'
    requires n != "" && AllSafe(n)
    ensures RawName("git@" + host + [sep] + n) == n
  {
    var x := "git@" + host + [sep] + n;
    assert x[..4] == "git@";
    SafeNameHasNoSeparators(n);
    assert x[|x| - |n| - 1..] == [sep] + n;
    var y := LastPart(x, '/');
    if sep == '/' {
      LastPartIs(x, '/', n);
    } else {
      LastPartCovers(x, '/', |x| - |n| - 1);
      assert y[|y| - |n| - 1..] == x[|x| - |n| - 1..];
    }
    LastPartIs(y, ':', n);
  }

  /** A safe, non-empty name before sanitizing is the repository name. */
  lemma SafeRawNameKept(url: string)
    requires RawName(Trimmed(url)) != "" && AllSafe(RawName(Trimmed(url)))
    ensures ExtractRepoName(url) == RawName(Trimmed(url))
  {
    FilterKeepsAll(RawName(Trimmed(url)), IsSafeChar);
  }

  /** `https://host/<dirs>/<name>` with `.git`, a trailing slash or nothing after it, and with
      white space around it, names the repository `<name>` (the HTTPS, trailing-slash,
      whitespace and deep-path cases of `_extract_repo_name`). */
  lemma HttpsUrlName(lead: string, host: string, dirs: string, n: string, tail: string, trail: string)
    requires IsBlank(lead) && IsBlank(trail)
    requires HttpsParts(host, dirs)
    requires n != "" && AllSafe(n)
    requires tail == ".git" || ((tail == "" || tail == "/") && !EndsWith(n, ".git"))
    ensures ExtractRepoName(lead + "https://" + host + dirs + "/" + n + tail + trail) == n
  {
    var url := lead + "https://" + host + dirs + "/" + n + tail + trail;
    var x := "https://" + host + (dirs + "/" + n);
    assert url == lead + x + tail + trail;
    assert x == ("https://" + host + dirs) + ['/'] + n;
    GitSuffixOfName("https://" + host + dirs, '/', n);
    assert x[|x| - 1] == n[|n| - 1];
    TrimmedPadded(lead, x, tail, trail);
    HttpsRawName(host, dirs, n);
    SafeRawNameKept(url);
  }

  /** `git@host:org/<name>` and `git@host:<name>`, with `.git`, a trailing slash or nothing
      after it and white space around it, name the repository `<name>` (the SSH cases of
      `_extract_repo_name`). */
  lemma SshUrlName(lead: string, host: string, sep: char, n: string, tail: string, trail: string)
    requires IsBlank(lead) && IsBlank(trail)
    requires sep == '/' || sep == ':'
    requires n != "" && AllSafe(n)
    requires tail == ".git" || ((tail == "" || tail == "/") && !EndsWith(n, ".git"))
    ensures ExtractRepoName(lead + "git@" + host + [sep] + n + tail + trail) == n
  {
    var url := lead + "git@" + host + [sep] + n + tail + trail;
    var x := "git@" + host + [sep] + n;
    assert url == lead + x + tail + trail;
    GitSuffixOfName("git@" + host, sep, n);
    assert x[|x| - 1] == n[|n| - 1];
    TrimmedPadded(lead, x, tail, trail);
    SshRawName(host, sep, n);
    SafeRawNameKept(url);
  }
}
