/** The code chunker of the retrieval engine (`CodeChunker`): a file is cut at the lines that
    open a function or type declaration, and files without such structure, or declaration
    segments that are too long, are cut by a sliding window over the text. */
module Chunking {
  import opened Text
  import opened Matchers
  import opened Windowing

  const DefaultChunkSize := 512
  const DefaultChunkOverlap := 64

  /** Structural segments shorter than this (after stripping) are dropped. */
  const MinSegmentChars := 20

  // ---------------------------------------------------------------------------------------------
  // Declaration lines
  // ---------------------------------------------------------------------------------------------

  /** A `\w` character at `i`. */
  predicate WordAt(s: string, i: nat) {
    i < |s| && IsWordChar(s[i])
  }

  /** Where the white space after the keyword `kw` at `i` ends, if `kw\s+` matches there. */
  function AfterKeyword(s: string, i: nat, kw: string): (r: nat)
    ensures r == 0 || (i + |kw| < r <= |s|)
  {
    if LitAt(s, i, kw, false) && RunEnd(s, i + |kw|, IsSpace) > i + |kw| then RunEnd(s, i + |kw|, IsSpace) else 0
  }

  /** `(?:kw1|kw2|...)\s+\w` matches at `i`. */
  predicate KeywordThenName(s: string, i: nat, keywords: seq<string>) {
    exists k :: 0 <= k < |keywords| && AfterKeyword(s, i, keywords[k]) > 0 && WordAt(s, AfterKeyword(s, i, keywords[k]))
  }

  /** Where an optional prefix `lit\s+` (or `lit` alone when `spaceAfter` is false) ends. */
  function SkipOptional(s: string, i: nat, lit: string, spaceAfter: bool): (r: nat)
    requires i <= |s|
    ensures i <= r <= |s|
  {
    if spaceAfter then (if AfterKeyword(s, i, lit) > 0 then AfterKeyword(s, i, lit) else i)
    else if LitAt(s, i, lit, false) then i + |lit| else i
  }

  /** `^(?:def|class|async def)\s+\w+` */
  predicate PythonDeclaration(s: string) {
    KeywordThenName(s, 0, ["def", "class", "async def"])
  }

  /** `^(?:public|private|protected)?\s*(?:static\s+)?(?:class|interface|enum)\s+\w+` */
  predicate JavaDeclaration(s: string) {
    var a := if LitAt(s, 0, "public", false) then |"public"|
             else if LitAt(s, 0, "private", false) then |"private"|
             else if LitAt(s, 0, "protected", false) then |"protected"| else 0;
    var b := RunEnd(s, a, IsSpace);
    var c := SkipOptional(s, b, "static", true);
    KeywordThenName(s, c, ["class", "interface", "enum"])
  }

  /** `^(?:export\s+)?(?:default\s+)?(?:function|class|const)\s+\w+` */
  predicate ScriptDeclaration(s: string) {
    var a := SkipOptional(s, 0, "export", true);
    var b := SkipOptional(s, a, "default", true);
    KeywordThenName(s, b, ["function", "class", "const"])
  }

  predicate NotCloseParen(c: char) {
    c != ')'
  }

  /** `^func\s+(?:\([^)]*\)\s*)?\w+` */
  predicate GoDeclaration(s: string) {
    var a := AfterKeyword(s, 0, "func");
    a > 0 &&
    if a < |s| && s[a] == '(' then
      var c := RunEnd(s, a + 1, NotCloseParen);
      c < |s| && WordAt(s, RunEnd(s, c + 1, IsSpace))
    else WordAt(s, a)
  }

  /** A line that opens a declaration, judged on its stripped text. */
  predicate IsBoundary(line: string) {
    var s := Strip(line);
    PythonDeclaration(s) || JavaDeclaration(s) || ScriptDeclaration(s) || GoDeclaration(s)
  }

  // ---------------------------------------------------------------------------------------------
  // Structural segments
  // ---------------------------------------------------------------------------------------------

  /** The boundaries among the first `n` lines: 0, then every later line that opens a
      declaration. */
  function BoundariesUpTo(opens: seq<bool>, n: nat): seq<nat>
    requires n <= |opens|
  {
    if n == 0 then [0]
    else BoundariesUpTo(opens, n - 1) + if n - 1 > 0 && opens[n - 1] then [n - 1] else []
  }

  /** Which lines open a declaration. */
  function Opens(lines: seq<string>): (r: seq<bool>)
    ensures |r| == |lines|
  {
    if lines == [] then [] else Opens(lines[..|lines| - 1]) + [IsBoundary(lines[|lines| - 1])]
  }

  lemma {:induction false} OpensMeans(lines: seq<string>)
    ensures forall i :: 0 <= i < |lines| ==> Opens(lines)[i] == IsBoundary(lines[i])
  {
    if lines != [] {
      var init := lines[..|lines| - 1];
      OpensMeans(init);
      forall i | 0 <= i < |lines|
        ensures Opens(lines)[i] == IsBoundary(lines[i])
      {
        if i < |init| {
          assert Opens(lines)[i] == Opens(init)[i];
          assert lines[i] == init[i];
        }
      }
    }
  }

  function Boundaries(lines: seq<string>): seq<nat> {
    BoundariesUpTo(Opens(lines), |lines|)
  }

  /** Boundaries start at 0, strictly increase, stay below the line count (or are just 0),
      and a later line is one exactly when it opens a declaration. */
  lemma {:induction false} BoundariesShape(opens: seq<bool>, n: nat)
    requires n <= |opens|
    ensures |BoundariesUpTo(opens, n)| >= 1 && BoundariesUpTo(opens, n)[0] == 0
    ensures forall i, j :: 0 <= i < j < |BoundariesUpTo(opens, n)| ==> BoundariesUpTo(opens, n)[i] < BoundariesUpTo(opens, n)[j]
    ensures forall i :: 0 <= i < |BoundariesUpTo(opens, n)| ==> BoundariesUpTo(opens, n)[i] < n || BoundariesUpTo(opens, n)[i] == 0
    ensures forall i :: 0 < i < n ==> (i in BoundariesUpTo(opens, n) <==> opens[i])
  {
    if n > 0 {
      BoundariesShape(opens, n - 1);
    }
  }

  /** The chunks of the segment `lines[start:end]`. */
  function SegmentChunks(lines: seq<string>, start: nat, end: nat, size: nat, overlap: nat,
                         repo: string, file: string): seq<Chunk>
    requires start <= end <= |lines| && overlap < size
  {
    var text := Strip(Join(lines[start..end], "\n"));
    if text == "" || |text| < MinSegmentChars then []
    else if |text| > size * 3 then Windows(lines[start..end], size, overlap, repo, file, start)
    else [Chunk(SegmentId(repo, file, start, end), text, repo, file, start + 1, end, Structural)]
  }

  /** An increasing list of cut points within `lines`. */
  predicate CutPoints(cuts: seq<nat>, count: nat) {
    (forall i, j :: 0 <= i < j < |cuts| ==> cuts[i] < cuts[j])
    && forall i :: 0 <= i < |cuts| ==> cuts[i] <= count
  }

  /** The chunks of the segments from the `n`-th on, between consecutive cut points. */
  function SegmentsFrom(lines: seq<string>, cuts: seq<nat>, n: nat, size: nat, overlap: nat,
                        repo: string, file: string): seq<Chunk>
    requires CutPoints(cuts, |lines|) && n < |cuts| && overlap < size
    decreases |cuts| - n
  {
    if n + 1 == |cuts| then []
    else SegmentChunks(lines, cuts[n], cuts[n + 1], size, overlap, repo, file)
         + SegmentsFrom(lines, cuts, n + 1, size, overlap, repo, file)
  }

  /** `_structural_chunks`: nothing when no line after the first opens a declaration, else
      the segments between the boundaries and the end of the file. */
  function StructuralOf(lines: seq<string>, size: nat, overlap: nat, repo: string, file: string): seq<Chunk>
    requires overlap < size
  {
    var b := Boundaries(lines);
    BoundariesShape(Opens(lines), |lines|);
    if |b| < 2 then []
    else
      var cuts := b + [|lines|];
      SegmentsFrom(lines, cuts, 0, size, overlap, repo, file)
  }

  /** `chunk_file`: nothing for blank content; the structural chunks when there are any; the
      sliding window over the whole text otherwise. */
  function FileChunks(content: string, size: nat, overlap: nat, repo: string, file: string): seq<Chunk>
    requires overlap < size
  {
    if Strip(content) == "" then []
    else
      var lines := Split(content, '\n');
      var structural := StructuralOf(lines, size, overlap, repo, file);
      if structural != [] then structural else Windows(lines, size, overlap, repo, file, 0)
  }

  /** A line not yet reached is not among the boundaries collected so far. */
  lemma NotYetBoundary(opens: seq<bool>, i: nat)
    requires i < |opens|
    ensures i > 0 ==> i !in BoundariesUpTo(opens, i)
  {
    BoundariesShape(opens, i);
  }

  /** The boundaries followed by the line count are cut points of the file. */
  lemma CutsOfBoundaries(lines: seq<string>)
    requires |Boundaries(lines)| >= 2
    ensures CutPoints(Boundaries(lines) + [|lines|], |lines|)
  {
    BoundariesShape(Opens(lines), |lines|);
  }

  /** One step of the boundary scan: line `i` is added exactly when it opens a declaration,
      is not the first line and is not already listed. */
  lemma BoundaryStep(lines: seq<string>, i: nat, b: seq<nat>)
    requires i < |lines| && b == BoundariesUpTo(Opens(lines), i)
    ensures IsBoundary(lines[i]) && i > 0 && i !in b ==> b + [i] == BoundariesUpTo(Opens(lines), i + 1)
    ensures !(IsBoundary(lines[i]) && i > 0 && i !in b) ==> b == BoundariesUpTo(Opens(lines), i + 1)
  {
    OpensMeans(lines);
    NotYetBoundary(Opens(lines), i);
  }

  lemma SegmentsFromFirst(lines: seq<string>, cuts: seq<nat>, n: nat, size: nat, overlap: nat, repo: string, file: string)
    requires CutPoints(cuts, |lines|) && n + 1 < |cuts| && overlap < size
    ensures SegmentsFrom(lines, cuts, n, size, overlap, repo, file)
      == SegmentChunks(lines, cuts[n], cuts[n + 1], size, overlap, repo, file) + SegmentsFrom(lines, cuts, n + 1, size, overlap, repo, file)
  {
  }

  /** The segment loop starts with nothing collected and every segment ahead. */
  lemma SegmentsBegin(lines: seq<string>, cuts: seq<nat>, size: nat, overlap: nat, repo: string, file: string)
    requires CutPoints(cuts, |lines|) && 0 < |cuts| && overlap < size
    ensures [] + SegmentsFrom(lines, cuts, 0, size, overlap, repo, file) == SegmentsFrom(lines, cuts, 0, size, overlap, repo, file)
  {
  }

  /** Collecting the chunks of segment `n` leaves the later segments ahead. */
  lemma SegmentsAdvance(lines: seq<string>, cuts: seq<nat>, n: nat, size: nat, overlap: nat, repo: string, file: string,
                        done: seq<Chunk>, c: seq<Chunk>)
    requires CutPoints(cuts, |lines|) && n + 1 < |cuts| && overlap < size
    requires done + SegmentsFrom(lines, cuts, n, size, overlap, repo, file) == SegmentsFrom(lines, cuts, 0, size, overlap, repo, file)
    requires c == SegmentChunks(lines, cuts[n], cuts[n + 1], size, overlap, repo, file)
    ensures (done + c) + SegmentsFrom(lines, cuts, n + 1, size, overlap, repo, file) == SegmentsFrom(lines, cuts, 0, size, overlap, repo, file)
  {
    SegmentsFromFirst(lines, cuts, n, size, overlap, repo, file);
    Regroup(done, c, SegmentsFrom(lines, cuts, n + 1, size, overlap, repo, file));
  }

  /** After the last segment, everything has been collected. */
  lemma SegmentsEnd(lines: seq<string>, cuts: seq<nat>, n: nat, size: nat, overlap: nat, repo: string, file: string, done: seq<Chunk>)
    requires CutPoints(cuts, |lines|) && n + 1 == |cuts| && overlap < size
    requires done + SegmentsFrom(lines, cuts, n, size, overlap, repo, file) == SegmentsFrom(lines, cuts, 0, size, overlap, repo, file)
    ensures done == SegmentsFrom(lines, cuts, 0, size, overlap, repo, file)
  {
    assert done + [] == done;
  }

  /** The boundary scan of `_structural_chunks`. */
  method FindBoundaries(lines: seq<string>) returns (boundaries: seq<nat>)
    ensures boundaries == Boundaries(lines)
  {
    boundaries := [0];
    var i: nat := 0;
    while i < |lines|
      invariant i <= |lines|
      invariant boundaries == BoundariesUpTo(Opens(lines), i)
    {
      BoundaryStep(lines, i, boundaries);
      if IsBoundary(lines[i]) && i > 0 && i !in boundaries {
        boundaries := boundaries + [i];
      }
      i := i + 1;
    }
  }

  /** The segment loop of `_structural_chunks`, over consecutive cut points. */
  method ChunkSegments(lines: seq<string>, cuts: seq<nat>, size: nat, overlap: nat, repo: string, file: string)
    returns (chunks: seq<Chunk>)
    requires CutPoints(cuts, |lines|) && |cuts| >= 1 && overlap < size
    ensures chunks == SegmentsFrom(lines, cuts, 0, size, overlap, repo, file)
  {
    chunks := [];
    var idx: nat := 0;
    SegmentsBegin(lines, cuts, size, overlap, repo, file);
    while idx < |cuts| - 1
      invariant idx <= |cuts| - 1
      invariant chunks + SegmentsFrom(lines, cuts, idx, size, overlap, repo, file) == SegmentsFrom(lines, cuts, 0, size, overlap, repo, file)
    {
      var segment := SegmentAt(lines, cuts[idx], cuts[idx + 1], size, overlap, repo, file);
      SegmentsAdvance(lines, cuts, idx, size, overlap, repo, file, chunks, segment);
      chunks := chunks + segment;
      idx := idx + 1;
    }
    SegmentsEnd(lines, cuts, idx, size, overlap, repo, file, chunks);
  }

  /** The chunks of one segment: nothing for a short segment, the sliding window over an
      oversize one, one structural chunk otherwise. */
  method SegmentAt(lines: seq<string>, start: nat, end: nat, size: nat, overlap: nat, repo: string, file: string)
    returns (chunks: seq<Chunk>)
    requires start <= end <= |lines| && overlap < size
    ensures chunks == SegmentChunks(lines, start, end, size, overlap, repo, file)
  {
    var text := Strip(Join(lines[start..end], "\n"));
    if text == "" || |text| < MinSegmentChars {
      chunks := [];
    } else if |text| > size * 3 {
      chunks := WalkWindows(Join(lines[start..end], "\n"), size, size - overlap, repo, file, start);
    } else {
      chunks := [Chunk(SegmentId(repo, file, start, end), text, repo, file, start + 1, end, Structural)];
    }
  }

  // ---------------------------------------------------------------------------------------------
  // The chunker
  // ---------------------------------------------------------------------------------------------

  /** `CodeChunker`: a window size and an overlap, fixed at construction. */
  class CodeChunker {
    const chunkSize: nat
    const chunkOverlap: nat

    /** The window must move forward, so the overlap is smaller than the size. */
    constructor (chunkSize: nat := DefaultChunkSize, chunkOverlap: nat := DefaultChunkOverlap)
      requires chunkOverlap < chunkSize
      ensures this.chunkSize == chunkSize && this.chunkOverlap == chunkOverlap
    {
      this.chunkSize := chunkSize;
      this.chunkOverlap := chunkOverlap;
    }

    /** `chunk_file`. */
    method ChunkFile(content: string, file: string, repo: string) returns (chunks: seq<Chunk>)
      requires chunkOverlap < chunkSize
      ensures chunks == FileChunks(content, chunkSize, chunkOverlap, repo, file)
    {
      if Strip(content) == "" {
        return [];
      }
      var lines := Split(content, '\n');
      var structural := StructuralChunks(lines, file, repo);
      if structural != [] {
        return structural;
      }
      chunks := SlidingWindowChunks(lines, file, repo, 0);
    }

    /** `_structural_chunks`: collect the boundary lines, then chunk each segment. */
    method StructuralChunks(lines: seq<string>, file: string, repo: string) returns (chunks: seq<Chunk>)
      requires chunkOverlap < chunkSize
      ensures chunks == StructuralOf(lines, chunkSize, chunkOverlap, repo, file)
    {
      var boundaries := FindBoundaries(lines);
      if |boundaries| < 2 {
        return [];
      }
      CutsOfBoundaries(lines);
      chunks := ChunkSegments(lines, boundaries + [|lines|], chunkSize, chunkOverlap, repo, file);
    }

    /** `_sliding_window_chunks`: walk a window over the joined text, numbering every window and
        keeping the non-blank ones. */
    method SlidingWindowChunks(lines: seq<string>, file: string, repo: string, startLine: nat) returns (chunks: seq<Chunk>)
      requires chunkOverlap < chunkSize
      ensures chunks == Windows(lines, chunkSize, chunkOverlap, repo, file, startLine)
    {
      var text := Join(lines, "\n");
      chunks := WalkWindows(text, chunkSize, chunkSize - chunkOverlap, repo, file, startLine);
    }
  }

  /** The window start after `j` turns of the loop as written: `pos += chunk_size -
      chunk_overlap`, which `CodeChunker` does not check to be positive. */
  function AsWrittenWindowStart(j: nat, size: nat, overlap: nat): int {
    if j == 0 then 0 else AsWrittenWindowStart(j - 1, size, overlap) + (size - overlap)
  }

  /** With an overlap of at least the size, the window never moves forward: on a text that is
      not empty every turn of the loop starts inside the text, so `pos < len(text)` holds
      forever and `_sliding_window_chunks` does not return. */
  lemma {:induction false} WindowLoopStalls(text: string, size: nat, overlap: nat, j: nat)
    requires overlap >= size && text != ""
    ensures AsWrittenWindowStart(j, size, overlap) <= 0 < |text|
    decreases j
  {
    if j > 0 {
      WindowLoopStalls(text, size, overlap, j - 1);
    }
  }

  /** The window loop of `_sliding_window_chunks` over the joined text: every start
      `0, step, 2 * step, ...` below the text's length, numbered from 0. */
  method WalkWindows(text: string, size: nat, step: nat, repo: string, file: string, startLine: nat) returns (chunks: seq<Chunk>)
    requires step > 0
    ensures chunks == WindowsFrom(text, 0, 0, size, step, repo, file, startLine)
  {
    chunks := [];
    var pos: nat := 0;
    var idx: nat := 0;
    WalkBegins(text, size, step, repo, file, startLine);
    while pos < |text|
      invariant chunks + WindowsFrom(text, pos, idx, size, step, repo, file, startLine)
        == WindowsFrom(text, 0, 0, size, step, repo, file, startLine)
      decreases |text| - pos
    {
      var chunk := WindowAt(text, pos, idx, size, repo, file, startLine);
      WalkAdvances(text, pos, idx, size, step, repo, file, startLine, chunks, chunk);
      chunks := chunks + chunk;
      pos := pos + step;
      idx := idx + 1;
    }
    WalkEnds(text, pos, idx, size, step, repo, file, startLine, chunks);
  }

  /** The body of the window loop: the chunk of window `idx` at `pos`, unless its stripped
      text is blank. */
  method WindowAt(text: string, pos: nat, idx: nat, size: nat, repo: string, file: string, startLine: nat) returns (chunk: seq<Chunk>)
    ensures chunk == WindowChunk(text, pos, idx, size, repo, file, startLine)
  {
    var chunkText := WindowText(text, pos, size);
    chunk := [];
    if chunkText != "" {
      var linesBefore := CountChar(PySlice(text, 0, pos), '\n');
      var linesIn := CountChar(chunkText, '\n');
      chunk := [Chunk(WindowId(repo, file, idx), chunkText, repo, file,
                      startLine + linesBefore + 1, startLine + linesBefore + linesIn + 1, Window)];
    }
  }
}
