/** The repository configuration of the cache manager: the `*.txt` files of the repository
    configuration directory list one Git URL per line, optionally followed by `,branch`; blank
    lines and `#` comments are skipped, and an inline `#` starts a comment. Loading reads the files
    in name order and keeps the first entry for each URL; `add_repo` appends a line to
    `repos.txt`, and `remove_repo` rewrites it without the lines that name a repository. */
module RepoConfig {
  import opened Wrappers
  import opened Text
  import opened Order
  import opened RepoNames

  /** One configured repository: its URL and the branch to check out, if any. */
  datatype RepoEntry = RepoEntry(url: string, branch: Option<string>)

  // ---------------------------------------------------------------------------------------------
  // Reading one line
  // ---------------------------------------------------------------------------------------------

  /** A line that is neither blank nor a comment. */
  predicate IsListedLine(line: string) {
    var l := Strip(line);
    l != "" && l[0] != '#'
  }

  /** `strip` never brings in a character that was not there. */
  lemma NotInStrip(s: string, c: char)
    requires c !in s
    ensures c !in Strip(s)
  {
    StripProperties(s);
    var i :| OccursAt(s, Strip(s), i);
    forall k | 0 <= k < |Strip(s)| ensures Strip(s)[k] != c {
      assert Strip(s)[k] == s[i + k];
    }
  }

  /** The line with an inline comment cut off and the rest stripped. */
  function WithoutComment(l: string): (r: string)
    ensures '#' !in r
  {
    var i := IndexOfChar(l, '#');
    if i < 0 then l
    else NotInStrip(l[..i], '#'); Strip(l[..i])
  }

  /** One line of a repository file as `load_repository_configs` reads it: blank and comment
      lines give nothing; otherwise an inline comment is cut off and the last comma, if there is
      one, separates the URL from the branch. Neither holds a `#`, and the branch holds no comma. */
  function ParseLine(line: string): (r: Option<RepoEntry>)
    ensures r.None? <==> !IsListedLine(line)
    ensures r.Some? ==> '#' !in r.value.url
    ensures r.Some? && r.value.branch.Some? ==> '#' !in r.value.branch.value && ',' !in r.value.branch.value
  {
    var l := Strip(line);
    if l == "" || l[0] == '#' then None
    else
      var t := WithoutComment(l);
      var c := RIndexOfChar(t, ',');
      if c < 0 then Some(RepoEntry(t, None))
      else
        NotInStrip(t[..c], '#');
        NotInStrip(t[c + 1..], '#');
        NotInStrip(t[c + 1..], ',');
        Some(RepoEntry(Strip(t[..c]), Some(Strip(t[c + 1..]))))
  }

  /** The entry of a line, as a sequence of none or one. */
  function Listed(o: Option<RepoEntry>): seq<RepoEntry> {
    match o
    case Some(e) => [e]
    case None => []
  }

  /** The entries of a sequence of lines, in order. */
  function ParsedLines(lines: seq<string>): (r: seq<RepoEntry>)
    ensures |r| <= |lines|
  {
    if lines == [] then []
    else ParsedLines(lines[..|lines| - 1]) + Listed(ParseLine(lines[|lines| - 1]))
  }

  lemma ParsedLinesSnoc(lines: seq<string>, l: string)
    ensures ParsedLines(lines + [l]) == ParsedLines(lines) + Listed(ParseLine(l))
  {
    assert (lines + [l])[..|lines|] == lines;
  }

  /** The entries of one repository file. */
  function Entries(content: string): seq<RepoEntry> {
    ParsedLines(Split(content, '\n'))
  }

  /** The entries of the repository files in the order they are read; a file that cannot be
      read (`None`) contributes nothing. */
  function AllEntries(contents: seq<Option<string>>): seq<RepoEntry> {
    if contents == [] then []
    else
      AllEntries(contents[..|contents| - 1]) + FileEntries(contents[|contents| - 1])
  }

  function FileEntries(content: Option<string>): seq<RepoEntry> {
    match content
    case Some(c) => Entries(c)
    case None => []
  }

  function UrlsOf(es: seq<RepoEntry>): set<string> {
    set e | e in es :: e.url
  }

  /** The entries with the first entry for each URL kept and later ones dropped. */
  function Dedup(es: seq<RepoEntry>): seq<RepoEntry> {
    if es == [] then []
    else
      var kept := Dedup(es[..|es| - 1]);
      var e := es[|es| - 1];
      if e.url in UrlsOf(kept) then kept else kept + [e]
  }

  /** The first entry with `url`, scanning from the front. */
  function FirstWithUrl(es: seq<RepoEntry>, url: string): (r: Option<RepoEntry>)
    ensures r.Some? ==> r.value in es && r.value.url == url
    ensures r.None? ==> url !in UrlsOf(es)
  {
    if es == [] then None
    else if es[0].url == url then Some(es[0])
    else
      var r := FirstWithUrl(es[1..], url);
      assert forall e :: e in es && e != es[0] ==> e in es[1..];
      r
  }

  // ---------------------------------------------------------------------------------------------
  // What loading keeps
  // ---------------------------------------------------------------------------------------------

  lemma UrlsOfAppend(es: seq<RepoEntry>, e: RepoEntry)
    ensures UrlsOf(es + [e]) == UrlsOf(es) + {e.url}
  {
    assert forall x :: x in es + [e] <==> x in es || x == e;
  }

  /** Loading drops no URL: the kept entries name exactly the URLs of all entries. */
  lemma {:induction false} DedupUrls(es: seq<RepoEntry>)
    ensures UrlsOf(Dedup(es)) == UrlsOf(es)
  {
    if es != [] {
      var init := es[..|es| - 1];
      DedupUrls(init);
      assert es == init + [es[|es| - 1]];
      UrlsOfAppend(init, es[|es| - 1]);
      UrlsOfAppend(Dedup(init), es[|es| - 1]);
    }
  }

  /** No URL is loaded twice. */
  lemma {:induction false} DedupDistinct(es: seq<RepoEntry>)
    ensures forall i, j :: 0 <= i < j < |Dedup(es)| ==> Dedup(es)[i].url != Dedup(es)[j].url
  {
    if es != [] {
      var init := es[..|es| - 1];
      var kept := Dedup(init);
      DedupDistinct(init);
      var e := es[|es| - 1];
      if e.url !in UrlsOf(kept) {
        forall i | 0 <= i < |kept| ensures kept[i].url != e.url {
          assert kept[i] in kept;
        }
      }
    }
  }

  /** Appending an entry changes the first entry for a URL only when the URL was not there. */
  lemma {:induction false} FirstWithUrlAppend(es: seq<RepoEntry>, e: RepoEntry, url: string)
    ensures FirstWithUrl(es + [e], url) ==
      if url in UrlsOf(es) then FirstWithUrl(es, url) else if e.url == url then Some(e) else None
  {
    if es == [] {
      assert es + [e] == [e];
      assert [e][1..] == [];
    } else {
      assert (es + [e])[0] == es[0];
      assert (es + [e])[1..] == es[1..] + [e];
      FirstWithUrlAppend(es[1..], e, url);
      assert UrlsOf(es) == {es[0].url} + UrlsOf(es[1..]) by {
        assert forall x :: x in es <==> x == es[0] || x in es[1..];
      }
    }
  }

  /** Every loaded entry is the first entry with its URL: a later line for the same URL, in the
      same file or a later one, never overrides it. */
  lemma {:induction false} DedupKeepsFirst(es: seq<RepoEntry>)
    ensures forall e :: e in Dedup(es) ==> FirstWithUrl(es, e.url) == Some(e)
  {
    if es != [] {
      var init := es[..|es| - 1];
      var last := es[|es| - 1];
      var kept := Dedup(init);
      DedupKeepsFirst(init);
      DedupUrls(init);
      assert es == init + [last];
      forall e | e in Dedup(es) ensures FirstWithUrl(es, e.url) == Some(e) {
        FirstWithUrlAppend(init, last, e.url);
        if e in kept {
          assert e.url in UrlsOf(init);
        }
      }
    }
  }

  // ---------------------------------------------------------------------------------------------
  // `load_repository_configs`
  // ---------------------------------------------------------------------------------------------

  lemma DedupSnoc(es: seq<RepoEntry>, e: RepoEntry)
    ensures Dedup(es + [e]) == if e.url in UrlsOf(Dedup(es)) then Dedup(es) else Dedup(es) + [e]
  {
    assert (es + [e])[..|es|] == es;
  }

  lemma AllEntriesSnoc(contents: seq<Option<string>>, i: nat)
    requires i < |contents|
    ensures AllEntries(contents[..i + 1]) ==
      AllEntries(contents[..i]) + FileEntries(contents[i])
  {
    assert contents[..i + 1][..i] == contents[..i];
  }

  /** One line's entry, if any, kept unless its URL was seen. */
  method KeepEntry(repos0: seq<RepoEntry>, seen0: set<string>, entry: Option<RepoEntry>, ghost done: seq<RepoEntry>)
    returns (repos: seq<RepoEntry>, seen: set<string>)
    requires repos0 == Dedup(done) && seen0 == UrlsOf(repos0)
    ensures repos == Dedup(done + Listed(entry)) && seen == UrlsOf(repos)
  {
    repos, seen := repos0, seen0;
    match entry {
      case Some(e) =>
        DedupSnoc(done, e);
        if e.url !in seen {
          UrlsOfAppend(repos, e);
          seen := seen + {e.url};
          repos := repos + [e];
        }
      case None =>
        assert done + [] == done;
    }
  }

  lemma ParsedPrefixStep(before: seq<RepoEntry>, lines: seq<string>, j: nat)
    requires j < |lines|
    ensures before + ParsedLines(lines[..j + 1]) == (before + ParsedLines(lines[..j])) + Listed(ParseLine(lines[j]))
  {
    assert lines[..j + 1] == lines[..j] + [lines[j]];
    ParsedLinesSnoc(lines[..j], lines[j]);
  }

  /** Reads the entries of one file's lines on top of the entries loaded so far. */
  method LoadLines(lines: seq<string>, repos0: seq<RepoEntry>, seen0: set<string>, ghost before: seq<RepoEntry>)
    returns (repos: seq<RepoEntry>, seen: set<string>)
    requires repos0 == Dedup(before) && seen0 == UrlsOf(repos0)
    ensures repos == Dedup(before + ParsedLines(lines)) && seen == UrlsOf(repos)
  {
    repos, seen := repos0, seen0;
    assert lines[..0] == [] && before + [] == before;
    var j := 0;
    while j < |lines|
      invariant 0 <= j <= |lines|
      invariant repos == Dedup(before + ParsedLines(lines[..j])) && seen == UrlsOf(repos)
    {
      ParsedPrefixStep(before, lines, j);
      repos, seen := KeepEntry(repos, seen, ParseLine(lines[j]), before + ParsedLines(lines[..j]));
      j := j + 1;
    }
    assert lines[..|lines|] == lines;
  }

  /** `load_repository_configs` over the contents of the repository files in the order they are
      read: the entries of every readable file, with the first entry for each URL kept. */
  method LoadConfigs(contents: seq<Option<string>>) returns (repos: seq<RepoEntry>)
    ensures repos == Dedup(AllEntries(contents))
  {
    repos := [];
    var seen: set<string> := {};
    var i := 0;
    while i < |contents|
      invariant 0 <= i <= |contents|
      invariant repos == Dedup(AllEntries(contents[..i])) && seen == UrlsOf(repos)
    {
      AllEntriesSnoc(contents, i);
      match contents[i] {
        case Some(c) =>
          repos, seen := LoadLines(Split(c, '\n'), repos, seen, AllEntries(contents[..i]));
          assert FileEntries(contents[i]) == ParsedLines(Split(c, '\n'));
        case None =>
          assert FileEntries(contents[i]) == [];
          assert AllEntries(contents[..i]) + [] == AllEntries(contents[..i]);
      }
      i := i + 1;
    }
    assert contents[..|contents|] == contents;
  }

  /** The `*.txt` files of the repository configuration directory, in sorted order. */
  function ConfigFileNames(files: map<string, Option<string>>): (r: seq<string>)
    ensures forall n :: n in r ==> n in files
  {
    SortedSet(set n | n in files && EndsWith(n, ".txt"))
  }

  function ContentsOf(files: map<string, Option<string>>, names: seq<string>): seq<Option<string>>
    requires forall n :: n in names ==> n in files
  {
    seq(|names|, i requires 0 <= i < |names| => files[names[i]])
  }

  // ---------------------------------------------------------------------------------------------
  // The lines `add_repo` writes
  // ---------------------------------------------------------------------------------------------

  const ReposTxt: string := "repos.txt"
  const InvalidUrlMessage: string := "Invalid URL. Must start with http://, https://, or git@"
  const NoConfigMessage: string := "No repository configuration file found"

  predicate HasValidPrefix(url: string) {
    StartsWith(url, "http://") || StartsWith(url, "https://") || StartsWith(url, "git@")
  }

  /** The branch that is written: an empty branch counts as none. */
  function BranchOf(branch: Option<string>): Option<string> {
    if branch.Some? && branch.value != "" then branch else None
  }

  /** The line `add_repo` writes: `url,branch`, or the URL alone. */
  function EntryLine(url: string, branch: Option<string>): string {
    match BranchOf(branch)
    case Some(b) => BranchLine(url, b)
    case None => url
  }

  /** The line written for an entry with a branch. */
  function BranchLine(url: string, b: string): string {
    url + "," + b
  }

  /** `repos.txt` after `add_repo` appends an entry. */
  function Appended(content: string, url: string, branch: Option<string>): string {
    content + "\n" + EntryLine(url, branch) + "\n"
  }

  /** A field that reads back as written: not empty, no white space at either end, and no `#`,
      comma or line feed. */
  predicate PlainField(s: string) {
    s != "" && !IsSpace(s[0]) && !IsSpace(s[|s| - 1]) && '#' !in s && ',' !in s && '\n' !in s
  }

  /** A branch `add_repo` may be given that reads back as written. */
  predicate PlainBranch(branch: Option<string>) {
    branch.Some? && branch.value != "" ==> PlainField(branch.value)
  }

  lemma SplitWithoutSep(s: string, sep: char)
    requires sep !in s
    ensures Split(s, sep) == [s]
  {
  }

  /** `split` at the first separator: the part before it, then the parts of the rest. */
  lemma SplitAt(s: string, sep: char, i: int)
    requires 0 <= i && IndexOfChar(s, sep) == i
    ensures Split(s, sep) == [s[..i]] + Split(s[i + 1..], sep)
  {
  }

  /** Joined parts: the first separator ends the first part, and the other parts follow it. */
  lemma JoinFirst(parts: seq<string>, sep: char)
    requires |parts| > 1 && sep !in parts[0]
    ensures var s := Join(parts, [sep]);
      IndexOfChar(s, sep) == |parts[0]| && s[..|parts[0]|] == parts[0] && s[|parts[0]| + 1..] == Join(parts[1..], [sep])
  {
    var s := Join(parts, [sep]);
    assert s == parts[0] + [sep] + Join(parts[1..], [sep]);
    IndexAfterPrefix(parts[0], sep, Join(parts[1..], [sep]));
  }

  /** Parts without the separator that join back to `s` are the parts `split` gives. */
  lemma {:induction false} SplitUnique(s: string, sep: char, parts: seq<string>)
    requires |parts| >= 1 && (forall k :: 0 <= k < |parts| ==> sep !in parts[k]) && Join(parts, [sep]) == s
    ensures Split(s, sep) == parts
    decreases |parts|
  {
    if |parts| > 1 {
      var rest := parts[1..];
      JoinFirst(parts, sep);
      SplitAt(s, sep, |parts[0]|);
      assert forall k :: 0 <= k < |rest| ==> rest[k] == parts[k + 1];
      SplitUnique(Join(rest, [sep]), sep, rest);
      assert parts == [parts[0]] + rest;
    }
  }

  /** Joining two non-empty lists of parts puts one separator between them. */
  lemma {:induction false} JoinAppend(p: seq<string>, q: seq<string>, sep: string)
    requires p != [] && q != []
    ensures Join(p + q, sep) == Join(p, sep) + sep + Join(q, sep)
    decreases |p|
  {
    if |p| > 1 {
      assert (p + q)[1..] == p[1..] + q;
      JoinAppend(p[1..], q, sep);
    } else {
      assert (p + q)[1..] == q;
    }
  }

  /** The last occurrence of `c` is the one before a suffix that avoids it. */
  lemma {:induction false} RIndexBeforeSuffix(p: string, c: char, rest: string)
    requires c !in rest
    ensures RIndexOfChar(p + [c] + rest, c) == |p|
    decreases |rest|
  {
    if rest != [] {
      var s := p + [c] + rest;
      assert s[..|s| - 1] == p + [c] + rest[..|rest| - 1];
      assert s[|s| - 1] == rest[|rest| - 1];
      RIndexBeforeSuffix(p, c, rest[..|rest| - 1]);
    }
  }

  /** A plain field is its own strip. */
  lemma StripPlain(s: string)
    requires PlainField(s)
    ensures Strip(s) == s
  {
    StripPadded("", s, "");
    assert "" + s + "" == s;
  }

  /** A URL written alone reads back as the URL without a branch. */
  lemma ParseUrlLine(url: string)
    requires PlainField(url)
    ensures ParseLine(url) == Some(RepoEntry(url, None))
  {
    StripPlain(url);
  }

  /** A listed line without an inline comment is cut at its last comma. */
  lemma ParseCommaLine(l: string, c: int)
    requires Strip(l) == l && l != "" && l[0] != '#' && '#' !in l && 0 <= c && RIndexOfChar(l, ',') == c
    ensures ParseLine(l) == Some(RepoEntry(Strip(l[..c]), Some(Strip(l[c + 1..]))))
  {
  }

  /** `url,branch` has nothing to strip and is not a comment. */
  lemma BranchLineStrip(url: string, b: string)
    requires PlainField(url) && PlainField(b)
    ensures Strip(BranchLine(url, b)) == BranchLine(url, b) && BranchLine(url, b) != "" && BranchLine(url, b)[0] != '#'
  {
    var l := url + [','] + b;
    assert BranchLine(url, b) == l;
    assert l[0] == url[0] && l[|l| - 1] == b[|b| - 1];
    StripPadded("", l, "");
    assert "" + l + "" == l;
  }

  /** In `url,branch` the last comma is the one written, and there is no `#`. */
  lemma BranchLineComma(url: string, b: string)
    requires PlainField(url) && PlainField(b)
    ensures var l := BranchLine(url, b);
      '#' !in l && RIndexOfChar(l, ',') == |url| && l[..|url|] == url && l[|url| + 1..] == b
  {
    var l := url + [','] + b;
    assert BranchLine(url, b) == l;
    RIndexBeforeSuffix(url, ',', b);
    assert l[..|url|] == url;
    assert l[|url| + 1..] == b;
  }

  /** `url,branch` reads back as the URL and the branch. */
  lemma ParseUrlBranchLine(url: string, b: string)
    requires PlainField(url) && PlainField(b)
    ensures ParseLine(BranchLine(url, b)) == Some(RepoEntry(url, Some(b)))
  {
    BranchLineStrip(url, b);
    BranchLineComma(url, b);
    ParseCommaLine(BranchLine(url, b), |url|);
    StripPlain(url);
    StripPlain(b);
  }

  /** A line written by `add_repo` reads back as the entry it was written for. */
  lemma ParseEntryLine(url: string, branch: Option<string>)
    requires PlainField(url) && PlainBranch(branch)
    ensures ParseLine(EntryLine(url, branch)) == Some(RepoEntry(url, BranchOf(branch)))
  {
    match BranchOf(branch) {
      case Some(b) => ParseUrlBranchLine(url, b);
      case None => ParseUrlLine(url);
    }
  }

  /** The lines of a file after a line is appended the way `add_repo` does it: the old lines,
      the new one, and an empty last line. */
  lemma AppendedSplit(content: string, line: string, sep: char)
    requires sep !in line
    ensures Split(content + [sep] + line + [sep], sep) == Split(content, sep) + [line, ""]
  {
    var before := Split(content, sep);
    var parts := before + [line, ""];
    JoinAppend(before, [line, ""], [sep]);
    assert Join([line, ""], [sep]) == line + [sep] + "";
    assert content + [sep] + line + [sep] == content + [sep] + (line + [sep] + "");
    forall k | 0 <= k < |parts| ensures sep !in parts[k] {
      if k < |before| {
        assert parts[k] == before[k];
      }
    }
    SplitUnique(content + [sep] + line + [sep], sep, parts);
  }

  lemma EntryLineIsOneLine(url: string, branch: Option<string>)
    requires PlainField(url) && PlainBranch(branch)
    ensures '\n' !in EntryLine(url, branch)
  {
  }

  /** Appending a line the way `add_repo` does adds what that line reads as. */
  lemma EntriesOfAppendedLine(content: string, line: string)
    requires '\n' !in line
    ensures Entries(content + "\n" + line + "\n") == Entries(content) + Listed(ParseLine(line))
  {
    var before := Split(content, '\n');
    assert content + "\n" + line + "\n" == content + ['\n'] + line + ['\n'];
    AppendedSplit(content, line, '\n');
    assert before + [line, ""] == (before + [line]) + [""];
    ParsedLinesSnoc(before + [line], "");
    ParsedLinesSnoc(before, line);
    assert Strip("") == "";
  }

  /** Appending an entry line adds exactly that entry to what the file lists. */
  lemma AppendedEntries(content: string, url: string, branch: Option<string>)
    requires PlainField(url) && PlainBranch(branch)
    ensures Entries(Appended(content, url, branch)) == Entries(content) + [RepoEntry(url, BranchOf(branch))]
  {
    EntryLineIsOneLine(url, branch);
    EntriesOfAppendedLine(content, EntryLine(url, branch));
    ParseEntryLine(url, branch);
  }

  // ---------------------------------------------------------------------------------------------
  // `add_repo`'s duplicate check
  // ---------------------------------------------------------------------------------------------

  /** The URL field `add_repo` and `remove_repo` read from a line: the first comma-separated
      field, stripped, with any inline comment left in. */
  function AsWrittenUrl(line: string): string {
    Strip(FirstPart(Strip(line), ','))
  }

  /** The URLs `add_repo` finds already configured, as written: the first fields of the listed
      lines, inline comments included. */
  function ListedUrlsAsWritten(content: string): set<string> {
    set l | l in Split(content, '\n') && IsListedLine(l) :: AsWrittenUrl(l)
  }

  /** The URLs the loader reads from a file: the URL of every entry. */
  function ConfiguredUrls(content: string): set<string> {
    UrlsOf(Entries(content))
  }

  /** With the duplicate check done on what the loader reads, an entry `add_repo` accepts is the
      one the loader reports for its URL: the branch asked for is the branch that is used. */
  lemma AddedEntryLoads(content: string, url: string, branch: Option<string>)
    requires PlainField(url) && PlainBranch(branch) && url !in ConfiguredUrls(content)
    ensures var es := Entries(Appended(content, url, branch));
      FirstWithUrl(es, url) == Some(RepoEntry(url, BranchOf(branch))) && RepoEntry(url, BranchOf(branch)) in Dedup(es)
  {
    var e := RepoEntry(url, BranchOf(branch));
    var es := Entries(Appended(content, url, branch));
    AppendedEntries(content, url, branch);
    FirstWithUrlAppend(Entries(content), e, url);
    DedupUrls(es);
    assert url in UrlsOf(es);
    DedupKeepsFirst(es);
    var k: RepoEntry :| k in Dedup(es) && k.url == url;
    assert FirstWithUrl(es, k.url) == Some(k);
  }

  /** A comment that follows a URL on its line: not empty, no white space at its end, and no
      comma or line feed. */
  predicate PlainNote(note: string) {
    note != "" && !IsSpace(note[|note| - 1]) && ',' !in note && '\n' !in note
  }

  /** `url #note`: a URL followed by an inline comment. */
  function CommentedLine(url: string, note: string): string {
    url + " #" + note
  }

  /** The check as written misses a URL whose line carries an inline comment: `url #note` is
      read by the loader as `url`, yet `add_repo` accepts `url` again, and the branch it appends
      is never loaded, because the loader keeps the first entry. */
  lemma InlineCommentHidesDuplicate(url: string, note: string, branch: string)
    requires PlainField(url) && PlainField(branch) && PlainNote(note)
    ensures var content := CommentedLine(url, note);
      url !in ListedUrlsAsWritten(content) && url in ConfiguredUrls(content)
      && FirstWithUrl(Entries(Appended(content, url, Some(branch))), url) == Some(RepoEntry(url, None))
  {
    var content := CommentedLine(url, note);
    CommentedLineAsWritten(url, note);
    CommentedLineEntries(url, note);
    assert RepoEntry(url, None) in Entries(content);
    AppendKeepsLoaded(content, url, Some(branch));
  }

  /** Appending a line for a URL the loader already reads changes nothing it reports for it. */
  lemma AppendKeepsLoaded(content: string, url: string, branch: Option<string>)
    requires PlainField(url) && PlainBranch(branch) && url in ConfiguredUrls(content)
    ensures FirstWithUrl(Entries(Appended(content, url, branch)), url) == FirstWithUrl(Entries(content), url)
  {
    AppendedEntries(content, url, branch);
    FirstWithUrlAppend(Entries(content), RepoEntry(url, BranchOf(branch)), url);
  }

  /** The check as written reads `url #note` whole: the comment stays in the URL it compares. */
  lemma CommentedLineAsWritten(url: string, note: string)
    requires PlainField(url) && PlainNote(note)
    ensures ListedUrlsAsWritten(CommentedLine(url, note)) == {CommentedLine(url, note)}
  {
    var l := CommentedLine(url, note);
    CommentedLineStrip(url, note);
    CommentedLineChars(url, note);
    SplitWithoutSep(l, '\n');
    assert FirstPart(l, ',') == l;
    assert AsWrittenUrl(l) == l && IsListedLine(l);
    assert l in Split(l, '\n');
  }

  /** The loader reads the file `url #note` as the one entry `url`. */
  lemma CommentedLineEntries(url: string, note: string)
    requires PlainField(url) && PlainNote(note)
    ensures Entries(CommentedLine(url, note)) == [RepoEntry(url, None)]
  {
    var l := CommentedLine(url, note);
    CommentedLineChars(url, note);
    SplitWithoutSep(l, '\n');
    assert [l][..0] == [];
    CommentLineParses(url, note);
  }

  /** `url #note` has nothing to strip and is not a comment. */
  lemma CommentedLineStrip(url: string, note: string)
    requires PlainField(url) && PlainNote(note)
    ensures var l := CommentedLine(url, note); Strip(l) == l && l != "" && l[0] != '#'
  {
    var l := url + [' ', '#'] + note;
    assert CommentedLine(url, note) == l;
    assert l[0] == url[0] && l[|l| - 1] == note[|note| - 1];
    StripPadded("", l, "");
    assert "" + l + "" == l;
  }

  /** `url #note` holds no comma or line feed, and its first `#` follows the URL and a space. */
  lemma CommentedLineChars(url: string, note: string)
    requires PlainField(url) && PlainNote(note)
    ensures var l := CommentedLine(url, note);
      ',' !in l && '\n' !in l && IndexOfChar(l, '#') == |url| + 1 && l[..|url| + 1] == url + [' ']
  {
    var p := url + [' '];
    var l := p + ['#'] + note;
    assert CommentedLine(url, note) == l;
    IndexAfterPrefix(p, '#', note);
    assert l[..|url| + 1] == p;
  }

  /** A listed line with an inline comment and no comma before it is read as the stripped text
      before the comment, without a branch. */
  lemma ParseCommentedLine(l: string, i: int)
    requires Strip(l) == l && l != "" && l[0] != '#' && 0 <= i && IndexOfChar(l, '#') == i && ',' !in Strip(l[..i])
    ensures ParseLine(l) == Some(RepoEntry(Strip(l[..i]), None))
  {
  }

  /** The loader reads `url #note` as `url` without a branch. */
  lemma CommentLineParses(url: string, note: string)
    requires PlainField(url) && PlainNote(note)
    ensures ParseLine(CommentedLine(url, note)) == Some(RepoEntry(url, None))
  {
    var l := CommentedLine(url, note);
    CommentedLineStrip(url, note);
    CommentedLineChars(url, note);
    assert IsBlank(" ");
    StripPadded("", url, " ");
    assert "" + url + " " == url + [' '];
    ParseCommentedLine(l, |url| + 1);
  }

  /** A URL whose line `add_repo`'s check reads back whole: a valid prefix, no white space at
      its end, and no comma or line feed. */
  predicate UrlField(url: string) {
    HasValidPrefix(url) && !IsSpace(url[|url| - 1]) && ',' !in url && '\n' !in url
  }

  /** A branch that keeps the written entry on one line. Git branch names cannot hold control
      characters, so every branch a caller can name meets this. */
  predicate OneLineBranch(branch: Option<string>) {
    branch.Some? ==> '\n' !in branch.value
  }

  /** `strip` keeps a prefix that starts and ends with a non-space character. */
  lemma StripKeepsHead(s: string, p: string)
    requires StartsWith(s, p) && p != [] && !IsSpace(p[0]) && !IsSpace(p[|p| - 1])
    ensures StartsWith(Strip(s), p)
  {
    assert StripLeft(s) == s;
    StripRightShape(s);
    assert |p| - 1 < |StripRight(s)|;
    assert StripRight(s)[..|p|] == s[..|p|];
  }

  /** The check as written reads the line `add_repo` writes as its URL. */
  lemma AsWrittenEntryLine(url: string, branch: Option<string>)
    requires UrlField(url) && OneLineBranch(branch)
    ensures var l := EntryLine(url, branch); '\n' !in l && IsListedLine(l) && AsWrittenUrl(l) == url
  {
    assert url[0] == 'h' || url[0] == 'g';
    StripPadded("", url, "");
    assert "" + url + "" == url;
    var l := EntryLine(url, branch);
    match BranchOf(branch)
    case None =>
      assert l == url;
      assert FirstPart(url, ',') == url;
    case Some(b) =>
      var p := url + [','];
      assert l == p + b;
      StripKeepsHead(l, p);
      var t := Strip(l);
      assert t == url + [','] + t[|p|..];
      IndexAfterPrefix(url, ',', t[|p|..]);
      assert FirstPart(t, ',') == url;
  }

  /** Once `add_repo` has appended a URL, its check as written refuses the same URL again. */
  lemma AddTwiceRefused(content: string, url: string, branch: Option<string>)
    requires UrlField(url) && OneLineBranch(branch)
    ensures url in ListedUrlsAsWritten(Appended(content, url, branch))
  {
    var l := EntryLine(url, branch);
    AsWrittenEntryLine(url, branch);
    assert Appended(content, url, branch) == content + ['\n'] + l + ['\n'];
    AppendedSplit(content, l, '\n');
    assert l in Split(Appended(content, url, branch), '\n');
  }

  /** A URL `add_repo` refuses as configured is one the loader already reports. */
  lemma ConfiguredUrlLoads(content: string, url: string)
    requires url in ConfiguredUrls(content)
    ensures FirstWithUrl(Entries(content), url).Some?
  {
  }

  // ---------------------------------------------------------------------------------------------
  // The lines `remove_repo` reads and writes
  // ---------------------------------------------------------------------------------------------

  /** `f.readlines()`: the lines of `s`, each with its line feed, the last one without when `s`
      does not end with one; writing them back gives `s`. */
  function ReadLines(s: string): (r: seq<string>)
    ensures Join(r, "") == s
    decreases |s|
  {
    if s == "" then []
    else
      var i := IndexOfChar(s, '\n');
      if i < 0 then [s]
      else
        var rest := ReadLines(s[i + 1..]);
        assert s == s[..i + 1] + s[i + 1..];
        assert ([s[..i + 1]] + rest)[1..] == rest;
        [s[..i + 1]] + rest
  }

  /** A line as `readlines` gives it: not empty, with a line feed at most at its end. */
  predicate LineOk(l: string) {
    l != "" && '\n' !in l[..|l| - 1]
  }

  predicate Terminated(l: string) {
    l != "" && l[|l| - 1] == '\n'
  }

  /** Lines as `readlines` returns them: every line well formed, and all but the last ending in a
      line feed. */
  predicate LinesShape(ls: seq<string>) {
    (forall k :: 0 <= k < |ls| ==> LineOk(ls[k]))
    && (forall k :: 0 <= k < |ls| - 1 ==> Terminated(ls[k]))
  }

  /** Every line of `ls` ends in a line feed. */
  predicate AllTerminated(ls: seq<string>) {
    forall k :: 0 <= k < |ls| ==> Terminated(ls[k])
  }

  lemma ConsShape(first: string, rest: seq<string>)
    requires LineOk(first) && Terminated(first) && LinesShape(rest)
    ensures LinesShape([first] + rest)
  {
    var r := [first] + rest;
    forall k | 1 <= k < |r| ensures r[k] == rest[k - 1] {
    }
  }

  lemma TailShape(ls: seq<string>)
    requires LinesShape(ls) && ls != []
    ensures LinesShape(ls[1..]) && LineOk(ls[0]) && (|ls| > 1 ==> Terminated(ls[0]))
  {
    var rest := ls[1..];
    forall k | 0 <= k < |rest| ensures rest[k] == ls[k + 1] {
    }
  }

  lemma SnocShape(ls: seq<string>, last: string)
    requires AllTerminated(ls) && (forall k :: 0 <= k < |ls| ==> LineOk(ls[k])) && LineOk(last)
    ensures LinesShape(ls + [last])
  {
    var r := ls + [last];
    forall k | 0 <= k < |ls| ensures r[k] == ls[k] {
    }
  }

  /** The first line of `s`, up to and including its first line feed. */
  lemma FirstLineShape(s: string, i: int)
    requires 0 <= i < |s| && s[i] == '\n' && '\n' !in s[..i]
    ensures LineOk(s[..i + 1]) && Terminated(s[..i + 1])
  {
    assert s[..i + 1][..i] == s[..i];
  }

  lemma OneLineShape(s: string)
    requires s != "" && '\n' !in s
    ensures LinesShape([s])
  {
    assert forall k :: 0 <= k < |s| - 1 ==> s[..|s| - 1][k] == s[k];
  }

  lemma {:induction false} ReadLinesShape(s: string)
    ensures LinesShape(ReadLines(s))
    decreases |s|
  {
    if s != "" {
      var i := IndexOfChar(s, '\n');
      if i >= 0 {
        ReadLinesShape(s[i + 1..]);
        FirstLineShape(s, i);
        ConsShape(s[..i + 1], ReadLines(s[i + 1..]));
        assert ReadLines(s) == [s[..i + 1]] + ReadLines(s[i + 1..]);
      } else {
        OneLineShape(s);
      }
    }
  }

  /** A line that is the last of the text reads back alone. */
  lemma LastLineReads(l: string)
    requires LineOk(l)
    ensures ReadLines(l) == [l]
  {
    var p := l[..|l| - 1];
    if l[|l| - 1] == '\n' {
      assert l == p + ['\n'] + "";
      IndexAfterPrefix(p, '\n', "");
      assert l[|l|..] == "";
    } else {
      assert l == p + [l[|l| - 1]];
    }
  }

  /** A line that ends in a line feed reads back as the first line, before the rest. */
  lemma FirstLineReads(l: string, rest: string)
    requires LineOk(l) && Terminated(l)
    ensures ReadLines(l + rest) == [l] + ReadLines(rest)
  {
    var p := l[..|l| - 1];
    var s := l + rest;
    assert s == p + ['\n'] + rest;
    IndexAfterPrefix(p, '\n', rest);
    assert s[..|l|] == l;
    assert s[|l|..] == rest;
  }

  /** Reading back lines of that shape, written one after the other, gives the same lines. */
  lemma {:induction false} ReadLinesOfJoin(ls: seq<string>)
    requires LinesShape(ls)
    ensures ReadLines(Join(ls, "")) == ls
    decreases |ls|
  {
    if ls != [] {
      TailShape(ls);
      if |ls| == 1 {
        LastLineReads(ls[0]);
      } else {
        ReadLinesOfJoin(ls[1..]);
        assert Join(ls, "") == ls[0] + Join(ls[1..], "");
        FirstLineReads(ls[0], Join(ls[1..], ""));
      }
    }
  }

  /** A line `remove_repo` drops: a listed line whose URL field, or the repository name made
      from it, is what was asked for. */
  predicate RemovesLine(line: string, nameOrUrl: string) {
    IsListedLine(line)
    && (ExtractRepoName(AsWrittenUrl(line)) == nameOrUrl || AsWrittenUrl(line) == nameOrUrl)
  }

  /** The test `remove_repo` applies to each line for `nameOrUrl`. */
  function Removes(nameOrUrl: string): string -> bool {
    line => RemovesLine(line, nameOrUrl)
  }

  /** Whether some line is dropped. */
  predicate AnyDropped(lines: seq<string>, drop: string -> bool) {
    lines != []
    && (AnyDropped(lines[..|lines| - 1], drop) || drop(lines[|lines| - 1]))
  }

  /** The lines `remove_repo` writes back: the others, in order. */
  function KeptLines(lines: seq<string>, drop: string -> bool): seq<string> {
    if lines == [] then []
    else
      var last := lines[|lines| - 1];
      KeptLines(lines[..|lines| - 1], drop) + (if drop(last) then [] else [last])
  }

  /** The kept lines are exactly the lines that are not dropped. */
  lemma {:induction false} KeptLinesExact(lines: seq<string>, drop: string -> bool)
    ensures forall l :: l in KeptLines(lines, drop) <==> l in lines && !drop(l)
  {
    if lines != [] {
      var init := lines[..|lines| - 1];
      KeptLinesExact(init, drop);
      assert lines == init + [lines[|lines| - 1]];
    }
  }

  /** Dropping lines keeps the shape `readlines` gives. */
  lemma {:induction false} KeptLinesShape(lines: seq<string>, drop: string -> bool)
    requires LinesShape(lines)
    ensures LinesShape(KeptLines(lines, drop))
  {
    if lines != [] {
      var init := lines[..|lines| - 1];
      var last := lines[|lines| - 1];
      InitShape(lines);
      KeptLinesShape(init, drop);
      if !drop(last) {
        var kept := KeptLines(init, drop);
        KeptLinesExact(init, drop);
        forall k | 0 <= k < |kept| ensures Terminated(kept[k]) && LineOk(kept[k]) {
          assert kept[k] in init;
        }
        SnocShape(kept, last);
      }
    }
  }

  lemma InitShape(ls: seq<string>)
    requires LinesShape(ls) && ls != []
    ensures LinesShape(ls[..|ls| - 1]) && AllTerminated(ls[..|ls| - 1]) && LineOk(ls[|ls| - 1])
    ensures forall l :: l in ls[..|ls| - 1] ==> Terminated(l) && LineOk(l)
  {
    var init := ls[..|ls| - 1];
    forall k | 0 <= k < |init| ensures init[k] == ls[k] {
    }
  }

  /** No line that was kept is dropped again. */
  lemma {:induction false} KeptLinesNoneDropped(lines: seq<string>, drop: string -> bool)
    ensures !AnyDropped(KeptLines(lines, drop), drop)
  {
    if lines != [] {
      var init := lines[..|lines| - 1];
      var last := lines[|lines| - 1];
      var kept := KeptLines(init, drop);
      KeptLinesNoneDropped(init, drop);
      if !drop(last) {
        assert KeptLines(lines, drop) == kept + [last];
        assert (kept + [last])[..|kept|] == kept;
      } else {
        assert KeptLines(lines, drop) == kept + [] == kept;
      }
    }
  }

  /** After a removal, the file read back holds no line the same test drops: asking again to
      remove the same repository finds nothing. */
  lemma RemoveAgainDropsNothing(content: string, drop: string -> bool)
    ensures !AnyDropped(ReadLines(Join(KeptLines(ReadLines(content), drop), "")), drop)
  {
    var kept := KeptLines(ReadLines(content), drop);
    ReadLinesShape(content);
    KeptLinesShape(ReadLines(content), drop);
    ReadLinesOfJoin(kept);
    KeptLinesNoneDropped(ReadLines(content), drop);
  }

  lemma KeptLinesStep(lines: seq<string>, j: nat, drop: string -> bool)
    requires j < |lines|
    ensures KeptLines(lines[..j + 1], drop) ==
      KeptLines(lines[..j], drop) + (if drop(lines[j]) then [] else [lines[j]])
    ensures AnyDropped(lines[..j + 1], drop) == (AnyDropped(lines[..j], drop) || drop(lines[j]))
  {
    assert lines[..j + 1][..j] == lines[..j];
  }

  /** The loop of `remove_repo`: the lines to keep, and whether any line was dropped. */
  method FilterLines(lines: seq<string>, nameOrUrl: string) returns (kept: seq<string>, removed: bool)
    ensures kept == KeptLines(lines, Removes(nameOrUrl)) && removed == AnyDropped(lines, Removes(nameOrUrl))
  {
    kept, removed := [], false;
    var j := 0;
    while j < |lines|
      invariant 0 <= j <= |lines|
      invariant kept == KeptLines(lines[..j], Removes(nameOrUrl)) && removed == AnyDropped(lines[..j], Removes(nameOrUrl))
    {
      KeptLinesStep(lines, j, Removes(nameOrUrl));
      if RemovesLine(lines[j], nameOrUrl) {
        removed := true;
      } else {
        kept := kept + [lines[j]];
      }
      j := j + 1;
    }
    assert lines[..|lines|] == lines;
  }

  // ---------------------------------------------------------------------------------------------
  // The cache manager
  // ---------------------------------------------------------------------------------------------

  /** What `add_repo` and `remove_repo` return: success and a message, or the error of reading
      `repos.txt`, which they do not catch. */
  datatype Reply = Reply(ok: bool, message: string) | ReadError(file: string)

  class CacheManager {
    /** The directory repositories are cloned into. */
    const reposDir: string
    /** The files of the repository configuration directory: their contents, or `None` for a
        file that cannot be read. */
    var files: map<string, Option<string>>

    constructor(reposDir: string, files: map<string, Option<string>>)
      ensures this.reposDir == reposDir && this.files == files
    {
      this.reposDir := reposDir;
      this.files := files;
    }

    /** `load_repository_configs`: the entries of the `*.txt` files in name order, with the first
        entry for each URL kept. */
    method LoadRepositoryConfigs() returns (repos: seq<RepoEntry>)
      ensures repos == Dedup(AllEntries(ContentsOf(files, ConfigFileNames(files))))
    {
      var names := ConfigFileNames(files);
      repos := LoadConfigs(ContentsOf(files, names));
    }

    /** `add_repo`: refuses a URL without an `http://`, `https://` or `git@` prefix and a URL
        that is the first comma field of a listed line of `repos.txt` (inline comments included,
        as the source compares them); otherwise appends its line to `repos.txt`, creating the
        file when it is missing. */
    method AddRepo(url: string, branch: Option<string>) returns (reply: Reply)
      modifies this
      ensures !HasValidPrefix(url) ==> reply == Reply(false, InvalidUrlMessage) && files == old(files)
      ensures HasValidPrefix(url) && ReposTxt in old(files) && old(files)[ReposTxt].None? ==>
        reply == ReadError(ReposTxt) && files == old(files)
      ensures HasValidPrefix(url) && (ReposTxt !in old(files) || old(files)[ReposTxt].Some?) ==>
        var content := if ReposTxt in old(files) then old(files)[ReposTxt].value else "";
        if url in ListedUrlsAsWritten(content) then
          reply == Reply(false, "Repository already configured: " + url) && files == old(files)
        else
          reply == Reply(true, "Added: " + url) && files == old(files)[ReposTxt := Some(Appended(content, url, branch))]
    {
      if !HasValidPrefix(url) {
        return Reply(false, InvalidUrlMessage);
      }
      var content := "";
      if ReposTxt in files {
        match files[ReposTxt] {
          case None => return ReadError(ReposTxt);
          case Some(c) => content := c;
        }
      }
      if url in ListedUrlsAsWritten(content) {
        return Reply(false, "Repository already configured: " + url);
      }
      files := files[ReposTxt := Some(Appended(content, url, branch))];
      reply := Reply(true, "Added: " + url);
    }

    /** `remove_repo`: rewrites `repos.txt` without the listed lines whose URL field, or the
        repository name made from it, is `nameOrUrl`, and reports when there were none. */
    method RemoveRepo(nameOrUrl: string) returns (reply: Reply)
      modifies this
      ensures ReposTxt !in old(files) ==> reply == Reply(false, NoConfigMessage) && files == old(files)
      ensures ReposTxt in old(files) && old(files)[ReposTxt].None? ==> reply == ReadError(ReposTxt) && files == old(files)
      ensures ReposTxt in old(files) && old(files)[ReposTxt].Some? ==>
        var lines := ReadLines(old(files)[ReposTxt].value);
        if AnyDropped(lines, Removes(nameOrUrl)) then
          reply == Reply(true, "Removed: " + nameOrUrl)
          && files == old(files)[ReposTxt := Some(Join(KeptLines(lines, Removes(nameOrUrl)), ""))]
        else
          reply == Reply(false, "Repository not found: " + nameOrUrl) && files == old(files)
    {
      if ReposTxt !in files {
        return Reply(false, NoConfigMessage);
      }
      match files[ReposTxt] {
        case None =>
          return ReadError(ReposTxt);
        case Some(c) =>
          var kept, removed := FilterLines(ReadLines(c), nameOrUrl);
          if !removed {
            return Reply(false, "Repository not found: " + nameOrUrl);
          }
          files := files[ReposTxt := Some(Join(kept, ""))];
          reply := Reply(true, "Removed: " + nameOrUrl);
      }
    }
  }
}
