/** The chunk builders of the retrieval layer (`doug/rag/indexers.py`): Markdown documents cut
    at their heading lines, one chunk per API endpoint of a repository, and one summary chunk of
    a repository's dependencies. */
module RagIndexers {
  import opened Wrappers
  import opened Text
  import opened Patterns

  // ---------------------------------------------------------------------------------------------
  // Chunks
  // ---------------------------------------------------------------------------------------------

  /** The metadata of each kind of chunk. */
  datatype IndexMeta =
    | DocMeta(repo: string, file: string, heading: string)
    | ApiMeta(repo: string, file: string, verb: string, path: string)
    | DepsMeta(repo: string, buildType: string)

  datatype IndexChunk = IndexChunk(id: string, text: string, meta: IndexMeta)

  // ---------------------------------------------------------------------------------------------
  // Heading lines: `re.split(r"^(#{1,6}\s+.+)$", content, flags=re.MULTILINE)`
  // ---------------------------------------------------------------------------------------------

  /** `^` under MULTILINE: the start of the text or just after a line feed. */
  predicate LineStart(s: string, i: nat)
    requires i <= |s|
  {
    i == 0 || s[i - 1] == '\n'
  }

  /** The number of `#` characters from `i` on. */
  function HashRun(s: string, i: nat): (r: nat)
    requires i <= |s|
    ensures i + r <= |s| && (i + r == |s| || s[i + r] != '#')
    ensures forall k :: i <= k < i + r ==> s[k] == '#'
    decreases |s| - i
  {
    if i < |s| && s[i] == '#' then 1 + HashRun(s, i + 1) else 0
  }

  /** The number of white-space characters (`\s`, line feeds included) from `i` on. */
  function SpaceRun(s: string, i: nat): (r: nat)
    requires i <= |s|
    ensures i + r <= |s| && (i + r == |s| || !IsSpace(s[i + r]))
    ensures forall k :: i <= k < i + r ==> IsSpace(s[k])
    decreases |s| - i
  {
    if i < |s| && IsSpace(s[i]) then 1 + SpaceRun(s, i + 1) else 0
  }

  /** The first line feed at or after `i`, or the end of the text: where `$` matches. */
  function LineEnd(s: string, i: nat): (r: nat)
    requires i <= |s|
    ensures i <= r <= |s| && (r == |s| || s[r] == '\n')
    ensures forall k :: i <= k < r ==> s[k] != '\n'
    decreases |s| - i
  {
    if i == |s| || s[i] == '\n' then i else LineEnd(s, i + 1)
  }

  /** Where `.+` can start after backtracking `\s+`: the last position in `(lo, q]` holding a
      character other than a line feed. */
  function LastLineChar(s: string, lo: nat, q: nat): (r: Option<nat>)
    requires q <= |s|
    ensures r.Some? ==> lo < r.value <= q && r.value < |s| && s[r.value] != '\n'
    ensures r.None? ==> forall k :: lo < k <= q && k < |s| ==> s[k] == '\n'
    decreases q
  {
    if q <= lo then None
    else if q < |s| && s[q] != '\n' then Some(q)
    else LastLineChar(s, lo, q - 1)
  }

  /** The end of a match of `#{1,6}\s+.+$` at `i`, if there is one: one to six `#`, white space
      (which may run over line feeds), then at least one character up to the end of its line. */
  function HeadingMatch(s: string, i: nat): (r: Option<nat>)
    requires i <= |s|
    ensures r.Some? ==> i < r.value <= |s|
  {
    var h := HashRun(s, i);
    if h < 1 || h > 6 then None
    else
      var w := SpaceRun(s, i + h);
      if w == 0 then None
      else
        match LastLineChar(s, i + h, i + h + w)
        case None => None
        case Some(q) => Some(LineEnd(s, q))
  }

  /** The pieces of `s[last..]` that `re.split` returns when the search resumes at `pos`:
      text, heading, text, ..., text. */
  function HeadingSplit(s: string, pos: nat, last: nat): (r: seq<string>)
    requires last <= pos <= |s|
    ensures |r| % 2 == 1
    decreases |s| - pos
  {
    if pos == |s| then [s[last..]]
    else if LineStart(s, pos) && HeadingMatch(s, pos).Some? then
      var e := HeadingMatch(s, pos).value;
      [s[last..pos], s[pos..e]] + HeadingSplit(s, e, e)
    else HeadingSplit(s, pos + 1, last)
  }

  /** `re.split(r"^(#{1,6}\s+.+)$", content, flags=re.MULTILINE)`. */
  function SplitAtHeadings(content: string): seq<string> {
    HeadingSplit(content, 0, 0)
  }

  /** The pieces concatenated. */
  function Concat(parts: seq<string>): string {
    if parts == [] then "" else parts[0] + Concat(parts[1..])
  }

  /** `re.match(r"^#{1,6}\s+", part)`: the part opens with one to six `#` and white space. */
  predicate IsHeadingPart(part: string) {
    var h := HashRun(part, 0);
    1 <= h <= 6 && h < |part| && IsSpace(part[h])
  }

  /** A text piece and a heading that cut `s[last..]` at `pos` and `e`, followed by pieces
      that concatenate to the rest, concatenate to `s[last..]`. */
  lemma ConcatPair(s: string, last: nat, pos: nat, e: nat, rest: seq<string>)
    requires last <= pos <= e <= |s| && Concat(rest) == s[e..]
    ensures Concat([s[last..pos], s[pos..e]] + rest) == s[last..]
  {
    var a, b := s[last..pos], s[pos..e];
    assert ([a, b] + rest)[1..] == [b] + rest;
    assert ([b] + rest)[1..] == rest;
    assert a + (b + s[e..]) == s[last..];
  }

  /** The split loses nothing: its pieces concatenate back to the text. */
  lemma {:induction false} HeadingSplitConcat(s: string, pos: nat, last: nat)
    requires last <= pos <= |s|
    ensures Concat(HeadingSplit(s, pos, last)) == s[last..]
    decreases |s| - pos
  {
    if pos < |s| {
      var m := HeadingMatch(s, pos);
      if LineStart(s, pos) && m.Some? {
        var e := m.value;
        var rest := HeadingSplit(s, e, e);
        assert HeadingSplit(s, pos, last) == [s[last..pos], s[pos..e]] + rest;
        HeadingSplitConcat(s, e, e);
        ConcatPair(s, last, pos, e, rest);
      } else {
        assert HeadingSplit(s, pos, last) == HeadingSplit(s, pos + 1, last);
        HeadingSplitConcat(s, pos + 1, last);
      }
    }
  }

  lemma SplitAtHeadingsConcat(content: string)
    ensures Concat(SplitAtHeadings(content)) == content
  {
    HeadingSplitConcat(content, 0, 0);
  }

  /** A heading the regex matched opens with one to six `#` and white space. */
  lemma HeadingMatchIsHeadingPart(s: string, i: nat)
    requires i <= |s| && HeadingMatch(s, i).Some?
    ensures IsHeadingPart(s[i..HeadingMatch(s, i).value])
  {
    var part := s[i..HeadingMatch(s, i).value];
    var h := HashRun(s, i);
    HashRunOfSlice(s, i, HeadingMatch(s, i).value);
    assert part[h] == s[i + h];
  }

  /** Counting `#` inside a slice that reaches past the run counts the same. */
  lemma {:induction false} HashRunOfSlice(s: string, i: nat, e: nat)
    requires i <= e <= |s| && i + HashRun(s, i) < e
    ensures HashRun(s[i..e], 0) == HashRun(s, i)
    decreases |s| - i
  {
    if i < |s| && s[i] == '#' {
      HashRunOfSlice(s, i + 1, e);
      assert s[i..e][1..] == s[i + 1..e];
      HashRunShift(s[i..e]);
    }
  }

  /** Dropping a leading `#` shortens the run by one. */
  lemma HashRunShift(p: string)
    requires p != [] && p[0] == '#'
    ensures HashRun(p, 0) == 1 + HashRun(p[1..], 0)
  {
    HashRunFrom(p, 1);
  }

  /** Counting from `i` in `p` is counting from 0 in `p[i..]`. */
  lemma {:induction false} HashRunFrom(p: string, i: nat)
    requires i <= |p|
    ensures HashRun(p, i) == HashRun(p[i..], 0)
    decreases |p| - i
  {
    if i < |p| && p[i] == '#' {
      HashRunFrom(p, i + 1);
      assert p[i..][1..] == p[i + 1..];
      HashRunFrom(p[i..], 1);
    }
  }

  /** Every odd piece of the split is a heading the regex matched at some position. */
  lemma {:induction false} OddPieceIsMatch(s: string, pos: nat, last: nat, k: nat) returns (i: nat)
    requires last <= pos <= |s| && k < |HeadingSplit(s, pos, last)| && k % 2 == 1
    ensures i <= |s| && HeadingMatch(s, i).Some?
    ensures HeadingSplit(s, pos, last)[k] == s[i..HeadingMatch(s, i).value]
    decreases |s| - pos
  {
    if pos == |s| {
      assert false;
    }
    var m := HeadingMatch(s, pos);
    if LineStart(s, pos) && m.Some? {
      var e := m.value;
      var rest := HeadingSplit(s, e, e);
      assert HeadingSplit(s, pos, last) == [s[last..pos], s[pos..e]] + rest;
      if k == 1 {
        i := pos;
      } else {
        i := OddPieceIsMatch(s, e, e, k - 2);
      }
    } else {
      i := OddPieceIsMatch(s, pos + 1, last, k);
    }
  }

  /** Every heading piece of the split opens with one to six `#` and white space, so the chunking
      loop starts a new section at it. */
  lemma SplitHeadingsAreHeadingParts(s: string, k: nat)
    requires k < |SplitAtHeadings(s)| && k % 2 == 1
    ensures IsHeadingPart(SplitAtHeadings(s)[k])
  {
    var i := OddPieceIsMatch(s, 0, 0, k);
    HeadingMatchIsHeadingPart(s, i);
  }

  // ---------------------------------------------------------------------------------------------
  // Documentation chunks
  // ---------------------------------------------------------------------------------------------

  /** `repo:file:docN`. */
  function DocId(repo: string, file: string, n: nat): string {
    repo + ":" + file + ":doc" + NatToString(n)
  }

  /** A section of a Markdown document: the heading line that opened it (or nothing for the text
      before the first heading) and its text, the heading line included. */
  datatype Section = Section(heading: string, text: string)

  /** The sections the chunking loop builds from the split pieces: a heading piece opens a new
      section whose text starts with the heading and a line feed; any other piece extends the
      current section. */
  function Sections(parts: seq<string>): (r: seq<Section>)
    ensures |r| >= 1
  {
    if parts == [] then [Section("", "")]
    else
      var init := Sections(parts[..|parts| - 1]);
      var p := parts[|parts| - 1];
      if IsHeadingPart(p) then init + [Section(Strip(p), p + "\n")]
      else init[..|init| - 1] + [Section(init[|init| - 1].heading, init[|init| - 1].text + p)]
  }

  /** `heading.lstrip("#").strip() if heading else ""`. */
  function HeadingTitle(heading: string): string {
    if heading == "" then "" else Strip(TrimLeft(heading, c => c == '#'))
  }

  /** The chunks of the sections with non-blank text, numbered consecutively from 0. */
  function DocChunks(secs: seq<Section>, size: nat, file: string, repo: string): seq<IndexChunk> {
    if secs == [] then []
    else
      var init := DocChunks(secs[..|secs| - 1], size, file, repo);
      var last := secs[|secs| - 1];
      if Strip(last.text) == "" then init
      else init + [MakeDocChunk(Strip(last.text), file, repo, |init|, last.heading, size)]
  }

  /** `_make_chunk`: text longer than `size` is cut to its first `size` characters and marked
      with "..."; the heading is kept without its `#` marks. */
  function MakeDocChunk(text: string, file: string, repo: string, idx: nat, heading: string, size: nat): (r: IndexChunk)
    ensures r.id == DocId(repo, file, idx) && r.meta == DocMeta(repo, file, HeadingTitle(heading))
    ensures |text| <= size ==> r.text == text
    ensures |text| > size ==> |r.text| == size + 3 && r.text[..size] == text[..size] && r.text[size..] == "..."
  {
    var t := if |text| > size then text[..size] + "..." else text;
    IndexChunk(DocId(repo, file, idx), t, DocMeta(repo, file, HeadingTitle(heading)))
  }

  /** `chunk_markdown` as a function of the content. */
  function MarkdownChunks(content: string, size: nat, file: string, repo: string): seq<IndexChunk> {
    DocChunks(Sections(SplitAtHeadings(content)), size, file, repo)
  }

  /** The number of sections with non-blank text. */
  function NonBlankSections(secs: seq<Section>): nat {
    if secs == [] then 0
    else NonBlankSections(secs[..|secs| - 1]) + if Strip(secs[|secs| - 1].text) == "" then 0 else 1
  }

  /** One chunk per section with non-blank text, the k-th numbered `dock`, never longer than the
      size plus the "..." mark, and the heading title free of leading `#`. */
  lemma {:induction false} DocChunksShape(secs: seq<Section>, size: nat, file: string, repo: string)
    ensures |DocChunks(secs, size, file, repo)| == NonBlankSections(secs)
    ensures forall k :: 0 <= k < |DocChunks(secs, size, file, repo)| ==>
      DocChunks(secs, size, file, repo)[k].id == DocId(repo, file, k)
      && DocChunks(secs, size, file, repo)[k].meta.DocMeta?
      && DocChunks(secs, size, file, repo)[k].text != ""
      && |DocChunks(secs, size, file, repo)[k].text| <= size + 3
  {
    if secs != [] {
      var init := secs[..|secs| - 1];
      DocChunksShape(init, size, file, repo);
      var last := secs[|secs| - 1];
      if Strip(last.text) != "" && size == 0 {
        assert |MakeDocChunk(Strip(last.text), file, repo, |DocChunks(init, size, file, repo)|, last.heading, size).text| == 3;
      }
    }
  }

  /** `DocumentationIndexer`: chunk size and overlap fixed at construction (the overlap is kept
      but not used when cutting documents). */
  class DocumentationIndexer {
    const chunkSize: nat
    const chunkOverlap: nat

    constructor (chunkSize: nat := 1024, chunkOverlap: nat := 64)
      ensures this.chunkSize == chunkSize && this.chunkOverlap == chunkOverlap
    {
      this.chunkSize := chunkSize;
      this.chunkOverlap := chunkOverlap;
    }

    /** `chunk_markdown`: walk the split pieces, closing the current section at each heading
        piece and emitting it when its text is not blank, then emit the last section likewise. */
    method ChunkMarkdown(content: string, file: string, repo: string) returns (chunks: seq<IndexChunk>)
      ensures chunks == MarkdownChunks(content, chunkSize, file, repo)
    {
      var parts := SplitAtHeadings(content);
      chunks := EmitSections(parts, chunkSize, file, repo);
    }
  }

  /** The loop of `chunk_markdown` over the split pieces. */
  method EmitSections(parts: seq<string>, size: nat, file: string, repo: string) returns (chunks: seq<IndexChunk>)
    ensures chunks == DocChunks(Sections(parts), size, file, repo)
  {
    chunks := [];
    var heading := "";
    var text := "";
    ghost var closed: seq<Section> := [];
    for i := 0 to |parts|
      invariant Sections(parts[..i]) == closed + [Section(heading, text)]
      invariant chunks == DocChunks(closed, size, file, repo)
    {
      SectionsAdvance(parts, i, closed, heading, text);
      chunks, heading, text, closed := EmitPart(parts[i], chunks, heading, text, closed, size, file, repo);
    }
    assert parts[..|parts|] == parts;
    chunks := EmitLast(chunks, heading, text, closed, size, file, repo);
  }

  /** One piece: a heading piece closes the current section, emitting it when its text is not
      blank, and opens the next; any other piece extends the current section. */
  method EmitPart(part: string, chunks: seq<IndexChunk>, heading: string, text: string, ghost closed: seq<Section>,
                  size: nat, file: string, repo: string)
    returns (chunks': seq<IndexChunk>, heading': string, text': string, ghost closed': seq<Section>)
    requires chunks == DocChunks(closed, size, file, repo)
    ensures chunks' == DocChunks(closed', size, file, repo)
    ensures IsHeadingPart(part) ==>
      closed' == closed + [Section(heading, text)] && heading' == Strip(part) && text' == part + "\n"
    ensures !IsHeadingPart(part) ==> closed' == closed && heading' == heading && text' == text + part
  {
    if IsHeadingPart(part) {
      chunks' := EmitLast(chunks, heading, text, closed, size, file, repo);
      closed' := closed + [Section(heading, text)];
      heading' := Strip(part);
      text' := part + "\n";
    } else {
      chunks', heading', text', closed' := chunks, heading, text + part, closed;
    }
  }

  /** Emits the section being built when its text is not blank, numbered by the chunks so far. */
  method EmitLast(chunks: seq<IndexChunk>, heading: string, text: string, ghost closed: seq<Section>,
                  size: nat, file: string, repo: string) returns (chunks': seq<IndexChunk>)
    requires chunks == DocChunks(closed, size, file, repo)
    ensures chunks' == DocChunks(closed + [Section(heading, text)], size, file, repo)
  {
    assert (closed + [Section(heading, text)])[..|closed|] == closed;
    var stripped := Strip(text);
    chunks' := chunks;
    if stripped != "" {
      chunks' := chunks + [MakeDocChunk(stripped, file, repo, |chunks|, heading, size)];
    }
  }

  /** The sections after one more piece, in terms of the closed sections and the one being built. */
  lemma SectionsAdvance(parts: seq<string>, i: nat, closed: seq<Section>, heading: string, text: string)
    requires i < |parts| && Sections(parts[..i]) == closed + [Section(heading, text)]
    ensures IsHeadingPart(parts[i]) ==>
      Sections(parts[..i + 1]) == closed + [Section(heading, text)] + [Section(Strip(parts[i]), parts[i] + "\n")]
    ensures !IsHeadingPart(parts[i]) ==> Sections(parts[..i + 1]) == closed + [Section(heading, text + parts[i])]
  {
    assert parts[..i + 1][..i] == parts[..i];
    var init := closed + [Section(heading, text)];
    assert init[..|init| - 1] == closed;
  }

  // ---------------------------------------------------------------------------------------------
  // API and dependency chunks
  // ---------------------------------------------------------------------------------------------

  /** The chunk of endpoint `i` of a repository. */
  function ApiChunk(api: Endpoint, repo: string, i: nat): IndexChunk {
    IndexChunk(repo + ":api:" + NatToString(i),
               "API Endpoint: " + api.verb + " " + api.path + "\nFile: " + api.file + "\nRepository: " + repo,
               ApiMeta(repo, api.file, api.verb, api.path))
  }

  /** `APIIndexer.chunk_apis`: one chunk per endpoint, in order, numbered by position, with the
      endpoint's verb, path and file copied into the metadata. */
  method ChunkApis(apis: seq<Endpoint>, repo: string) returns (chunks: seq<IndexChunk>)
    ensures |chunks| == |apis|
    ensures forall i :: 0 <= i < |apis| ==>
      chunks[i].id == repo + ":api:" + NatToString(i)
      && chunks[i].meta == ApiMeta(repo, apis[i].file, apis[i].verb, apis[i].path)
      && chunks[i].text == ApiChunk(apis[i], repo, i).text
  {
    chunks := [];
    for i := 0 to |apis|
      invariant |chunks| == i
      invariant forall j :: 0 <= j < i ==> chunks[j] == ApiChunk(apis[j], repo, j)
    {
      chunks := chunks + [ApiChunk(apis[i], repo, i)];
    }
  }

  /** A dependency as the cache holds it; its name may be missing. */
  datatype CachedDependency = CachedDependency(name: Option<string>)

  /** A build description as the cache holds it; its type may be missing. */
  datatype CachedBuild = CachedBuild(kind: Option<string>, dependencies: seq<CachedDependency>)

  /** How many dependency names the summary chunk lists. */
  const MaxListedDependencies := 30

  /** The names of the first thirty dependencies, a missing name read as "". */
  function ListedNames(deps: seq<CachedDependency>): (r: seq<string>)
    ensures |r| == if |deps| < MaxListedDependencies then |deps| else MaxListedDependencies
    ensures forall i :: 0 <= i < |r| ==> r[i] == deps[i].name.GetOr("")
  {
    var n := if |deps| < MaxListedDependencies then |deps| else MaxListedDependencies;
    seq(n, i requires 0 <= i < n => deps[i].name.GetOr(""))
  }

  /** `DependencyIndexer.chunk_dependencies`: nothing without dependencies, otherwise one chunk
      `repo:deps:0` naming the build type ("unknown" when missing) and the first thirty names. */
  function ChunkDependencies(build: CachedBuild, repo: string): (r: seq<IndexChunk>)
    ensures r == [] <==> build.dependencies == []
    ensures r != [] ==>
      |r| == 1 && r[0].id == repo + ":deps:0"
      && r[0].meta == DepsMeta(repo, build.kind.GetOr("unknown"))
      && r[0].text == "Repository: " + repo + "\nBuild system: " + build.kind.GetOr("unknown")
                      + "\nDependencies: " + Join(ListedNames(build.dependencies), ", ")
  {
    if build.dependencies == [] then []
    else
      var kind := build.kind.GetOr("unknown");
      [IndexChunk(repo + ":deps:0",
                  "Repository: " + repo + "\nBuild system: " + kind + "\nDependencies: " + Join(ListedNames(build.dependencies), ", "),
                  DepsMeta(repo, kind))]
  }
}
