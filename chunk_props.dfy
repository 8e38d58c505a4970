/** What the code chunker promises about the chunks of a file: a file that is not blank always
    gives chunks, each chunk names its repository and file and carries stripped, non-empty text
    of bounded length, and files without declaration lines fall back to the sliding window. */
module ChunkProperties {
  import opened Text
  import opened Windowing
  import opened Chunking

  /** A chunk as `chunk_file` produces it for `repo` and `file`: stripped non-empty text; a
      window holds at most `size` characters and is numbered; a structural chunk holds between
      `MinSegmentChars` and `3 * size` characters and its id names its line range. */
  predicate WellFormed(c: Chunk, repo: string, file: string, size: nat) {
    c.repo == repo && c.file == file
    && c.text != "" && !IsSpace(c.text[0]) && !IsSpace(c.text[|c.text| - 1])
    && 1 <= c.startLine <= c.endLine
    && (c.kind == Window ==> c.id.WindowId? && c.id.repo == repo && c.id.file == file && |c.text| <= size)
    && (c.kind == Structural ==>
          c.id == SegmentId(repo, file, c.startLine - 1, c.endLine) && MinSegmentChars <= |c.text| <= 3 * size)
  }

  /** Every chunk of the sliding window is well formed. */
  lemma WindowChunkWellFormed(text: string, pos: nat, k: nat, size: nat, step: nat, repo: string, file: string,
                              startLine: nat, c: Chunk)
    requires step > 0 && c in WindowsFrom(text, pos, k, size, step, repo, file, startLine)
    ensures WellFormed(c, repo, file, size)
  {
    WindowChunkIds(text, pos, k, size, step, repo, file, startLine);
    WindowChunkSound(text, pos, k, size, step, repo, file, startLine, c);
    var start := WindowStart(pos, c.id.k - k, step);
    WindowTextIsStrip(text, start, size);
    StripProperties(PySlice(text, start, start + size));
  }

  /** Every chunk of one segment is well formed. */
  lemma SegmentChunkWellFormed(lines: seq<string>, start: nat, end: nat, size: nat, overlap: nat,
                               repo: string, file: string, c: Chunk)
    requires start < end <= |lines| && overlap < size
    requires c in SegmentChunks(lines, start, end, size, overlap, repo, file)
    ensures WellFormed(c, repo, file, size)
  {
    var text := Strip(Join(lines[start..end], "\n"));
    if |text| > size * 3 {
      WindowChunkWellFormed(Join(lines[start..end], "\n"), 0, 0, size, size - overlap, repo, file, start, c);
    } else {
      StripProperties(Join(lines[start..end], "\n"));
    }
  }

  /** Every chunk of the segments from the `n`-th on is well formed. */
  lemma {:induction false} SegmentsWellFormed(lines: seq<string>, cuts: seq<nat>, n: nat, size: nat, overlap: nat,
                                              repo: string, file: string, c: Chunk)
    requires CutPoints(cuts, |lines|) && n < |cuts| && overlap < size
    requires c in SegmentsFrom(lines, cuts, n, size, overlap, repo, file)
    ensures WellFormed(c, repo, file, size)
    decreases |cuts| - n
  {
    if c in SegmentChunks(lines, cuts[n], cuts[n + 1], size, overlap, repo, file) {
      SegmentChunkWellFormed(lines, cuts[n], cuts[n + 1], size, overlap, repo, file, c);
    } else {
      SegmentsWellFormed(lines, cuts, n + 1, size, overlap, repo, file, c);
    }
  }

  /** Every structural chunk is well formed. */
  lemma StructuralWellFormed(lines: seq<string>, size: nat, overlap: nat, repo: string, file: string, c: Chunk)
    requires overlap < size && c in StructuralOf(lines, size, overlap, repo, file)
    ensures WellFormed(c, repo, file, size)
  {
    CutsOfBoundaries(lines);
    SegmentsWellFormed(lines, Boundaries(lines) + [|lines|], 0, size, overlap, repo, file, c);
  }

  /** The stripped text of the segment between cut points `m` and `m + 1`. */
  function SegmentText(lines: seq<string>, cuts: seq<nat>, m: nat): string
    requires CutPoints(cuts, |lines|) && m + 1 < |cuts|
  {
    Strip(Join(lines[cuts[m]..cuts[m + 1]], "\n"))
  }

  /** The structural chunk of segment `m`: its id and line numbers name the segment's lines, and
      its text is those lines joined and stripped. */
  function StructuralChunk(lines: seq<string>, cuts: seq<nat>, m: nat, repo: string, file: string): Chunk
    requires CutPoints(cuts, |lines|) && m + 1 < |cuts|
  {
    Chunk(SegmentId(repo, file, cuts[m], cuts[m + 1]), SegmentText(lines, cuts, m), repo, file, cuts[m] + 1, cuts[m + 1], Structural)
  }

  /** The windows of segment `m`, their lines counted from the segment's first line. */
  function SegmentWindows(lines: seq<string>, cuts: seq<nat>, m: nat, size: nat, overlap: nat, repo: string, file: string): seq<Chunk>
    requires CutPoints(cuts, |lines|) && m + 1 < |cuts| && overlap < size
  {
    Windows(lines[cuts[m]..cuts[m + 1]], size, overlap, repo, file, cuts[m])
  }

  /** `c` comes from segment `m`: as its structural chunk when the segment's text has between
      `MinSegmentChars` and `3 * size` characters, as one of its windows when it has more. */
  predicate FromSegment(c: Chunk, lines: seq<string>, cuts: seq<nat>, m: nat, size: nat, overlap: nat, repo: string, file: string)
    requires CutPoints(cuts, |lines|) && overlap < size
  {
    m + 1 < |cuts| &&
    var t := SegmentText(lines, cuts, m);
    if c.kind == Structural then MinSegmentChars <= |t| <= 3 * size && c == StructuralChunk(lines, cuts, m, repo, file)
    else MinSegmentChars <= |t| && |t| > 3 * size && c in SegmentWindows(lines, cuts, m, size, overlap, repo, file)
  }

  /** Every chunk of the segments from the `n`-th on comes from one of them. */
  lemma {:induction false} SegmentsSound(lines: seq<string>, cuts: seq<nat>, n: nat, size: nat, overlap: nat,
                                         repo: string, file: string, c: Chunk)
    returns (m: nat)
    requires CutPoints(cuts, |lines|) && n < |cuts| && overlap < size
    requires c in SegmentsFrom(lines, cuts, n, size, overlap, repo, file)
    ensures n <= m && FromSegment(c, lines, cuts, m, size, overlap, repo, file)
    decreases |cuts| - n
  {
    SegmentsFromFirst(lines, cuts, n, size, overlap, repo, file);
    if c in SegmentChunks(lines, cuts[n], cuts[n + 1], size, overlap, repo, file) {
      SegmentChunkFrom(lines, cuts, n, size, overlap, repo, file, c);
      m := n;
    } else {
      m := SegmentsSound(lines, cuts, n + 1, size, overlap, repo, file, c);
    }
  }

  /** A chunk of segment `m` comes from that segment. */
  lemma SegmentChunkFrom(lines: seq<string>, cuts: seq<nat>, m: nat, size: nat, overlap: nat,
                         repo: string, file: string, c: Chunk)
    requires CutPoints(cuts, |lines|) && m + 1 < |cuts| && overlap < size
    requires c in SegmentChunks(lines, cuts[m], cuts[m + 1], size, overlap, repo, file)
    ensures FromSegment(c, lines, cuts, m, size, overlap, repo, file)
  {
    if |SegmentText(lines, cuts, m)| > size * 3 {
      var text := Join(lines[cuts[m]..cuts[m + 1]], "\n");
      WindowChunkSound(text, 0, 0, size, size - overlap, repo, file, cuts[m], c);
    }
  }

  /** Every segment from the `n`-th on gives its chunks: its structural chunk when its text has
      between `MinSegmentChars` and `3 * size` characters, all its windows when it has more. */
  lemma {:induction false} SegmentsComplete(lines: seq<string>, cuts: seq<nat>, n: nat, m: nat, size: nat, overlap: nat,
                                            repo: string, file: string)
    requires CutPoints(cuts, |lines|) && n <= m && m + 1 < |cuts| && overlap < size
    ensures MinSegmentChars <= |SegmentText(lines, cuts, m)| <= 3 * size ==>
      StructuralChunk(lines, cuts, m, repo, file) in SegmentsFrom(lines, cuts, n, size, overlap, repo, file)
    ensures MinSegmentChars <= |SegmentText(lines, cuts, m)| && |SegmentText(lines, cuts, m)| > 3 * size ==>
      forall w :: w in SegmentWindows(lines, cuts, m, size, overlap, repo, file) ==>
        w in SegmentsFrom(lines, cuts, n, size, overlap, repo, file)
    decreases m - n
  {
    SegmentsFromFirst(lines, cuts, n, size, overlap, repo, file);
    var here := SegmentChunks(lines, cuts[n], cuts[n + 1], size, overlap, repo, file);
    var later := SegmentsFrom(lines, cuts, n + 1, size, overlap, repo, file);
    if n < m {
      SegmentsComplete(lines, cuts, n + 1, m, size, overlap, repo, file);
    } else {
      var t := SegmentText(lines, cuts, m);
      if MinSegmentChars <= |t| <= 3 * size {
        assert here == [StructuralChunk(lines, cuts, m, repo, file)];
      } else if MinSegmentChars <= |t| && |t| > 3 * size {
        assert here == SegmentWindows(lines, cuts, m, size, overlap, repo, file);
      }
    }
  }

  /** Soundness of `_structural_chunks`: each chunk comes from the segment between two
      consecutive boundaries (the last one ending at the end of the file), a structural chunk
      carrying that segment's stripped text under an id naming its line range, a window chunk
      being one of that oversize segment's windows. */
  lemma SegmentChunkSound(lines: seq<string>, size: nat, overlap: nat, repo: string, file: string, c: Chunk)
    requires overlap < size && c in StructuralOf(lines, size, overlap, repo, file)
    ensures |Boundaries(lines)| >= 2 && CutPoints(Boundaries(lines) + [|lines|], |lines|)
    ensures exists m :: FromSegment(c, lines, Boundaries(lines) + [|lines|], m, size, overlap, repo, file)
  {
    CutsOfBoundaries(lines);
    var m := SegmentsSound(lines, Boundaries(lines) + [|lines|], 0, size, overlap, repo, file, c);
  }

  /** Completeness of `_structural_chunks`: with at least one declaration line after the first
      line, every segment whose stripped text has between `MinSegmentChars` and `3 * size`
      characters gives its structural chunk, and every larger one (of at least
      `MinSegmentChars` characters) gives all its windows, whose line numbers start at the
      segment's first line. */
  lemma SegmentChunkComplete(lines: seq<string>, size: nat, overlap: nat, repo: string, file: string, m: nat)
    requires overlap < size && |Boundaries(lines)| >= 2 && m + 1 < |Boundaries(lines) + [|lines|]|
    ensures CutPoints(Boundaries(lines) + [|lines|], |lines|)
    ensures var cuts := Boundaries(lines) + [|lines|];
      MinSegmentChars <= |SegmentText(lines, cuts, m)| <= 3 * size ==>
      StructuralChunk(lines, cuts, m, repo, file) in StructuralOf(lines, size, overlap, repo, file)
    ensures var cuts := Boundaries(lines) + [|lines|];
      MinSegmentChars <= |SegmentText(lines, cuts, m)| && |SegmentText(lines, cuts, m)| > 3 * size ==>
      forall w :: w in SegmentWindows(lines, cuts, m, size, overlap, repo, file) ==>
        w in StructuralOf(lines, size, overlap, repo, file) && w.startLine > cuts[m]
  {
    var cuts := Boundaries(lines) + [|lines|];
    CutsOfBoundaries(lines);
    SegmentsComplete(lines, cuts, 0, m, size, overlap, repo, file);
    var text := Join(lines[cuts[m]..cuts[m + 1]], "\n");
    forall w | w in SegmentWindows(lines, cuts, m, size, overlap, repo, file)
      ensures w.startLine > cuts[m]
    {
      WindowChunkSound(text, 0, 0, size, size - overlap, repo, file, cuts[m], w);
    }
  }

  /** Every chunk of the sliding window over a whole file is well formed. */
  lemma FileWindowsWellFormed(lines: seq<string>, size: nat, overlap: nat, repo: string, file: string, c: Chunk)
    requires overlap < size && c in Windows(lines, size, overlap, repo, file, 0)
    ensures WellFormed(c, repo, file, size)
  {
    WindowChunkWellFormed(Join(lines, "\n"), 0, 0, size, size - overlap, repo, file, 0, c);
  }

  /** Every chunk `chunk_file` returns is well formed. */
  lemma FileChunksWellFormed(content: string, size: nat, overlap: nat, repo: string, file: string, c: Chunk)
    requires overlap < size && c in FileChunks(content, size, overlap, repo, file)
    ensures WellFormed(c, repo, file, size)
  {
    var lines := Split(content, '\n');
    if StructuralOf(lines, size, overlap, repo, file) != [] {
      StructuralWellFormed(lines, size, overlap, repo, file, c);
    } else {
      FileWindowsWellFormed(lines, size, overlap, repo, file, c);
    }
  }

  /** The sliding window over a file that is not blank gives at least one chunk. */
  lemma NonBlankHasWindows(content: string, size: nat, overlap: nat, repo: string, file: string)
    requires overlap < size && Strip(content) != ""
    ensures Windows(Split(content, '\n'), size, overlap, repo, file, 0) != []
  {
    StripProperties(content);
    var p :| 0 <= p < |content| && !IsSpace(content[p]);
    assert Join(Split(content, '\n'), "\n") == content;
    WindowsFindNonBlank(content, 0, 0, size, size - overlap, repo, file, 0, p);
  }

  /** `chunk_file` returns nothing exactly for blank content: any other file gives at least one
      chunk, from its declaration segments or else from the sliding window. */
  lemma BlankIffNoChunks(content: string, size: nat, overlap: nat, repo: string, file: string)
    requires overlap < size
    ensures FileChunks(content, size, overlap, repo, file) == [] <==> Strip(content) == ""
  {
    if Strip(content) != "" {
      NonBlankHasWindows(content, size, overlap, repo, file);
    }
  }

  /** With no declaration line after the first line, a file that is not blank is cut by the
      sliding window over its whole text. */
  lemma NoDeclarationsMeansWindows(content: string, size: nat, overlap: nat, repo: string, file: string)
    requires overlap < size && Strip(content) != ""
    requires forall i :: 0 < i < |Split(content, '\n')| ==> !IsBoundary(Split(content, '\n')[i])
    ensures FileChunks(content, size, overlap, repo, file) == Windows(Split(content, '\n'), size, overlap, repo, file, 0)
  {
    var lines := Split(content, '\n');
    OpensMeans(lines);
    OnlyFirstBoundary(Opens(lines), |lines|);
  }

  /** When no line after the first opens a declaration, the only boundary is line 0. */
  lemma {:induction false} OnlyFirstBoundary(opens: seq<bool>, n: nat)
    requires n <= |opens| && forall i :: 0 < i < n ==> !opens[i]
    ensures BoundariesUpTo(opens, n) == [0]
  {
    if n > 0 {
      OnlyFirstBoundary(opens, n - 1);
    }
  }

  /** Within one sliding-window pass the window counters strictly increase, so no id repeats. */
  lemma WindowIdsDistinct(lines: seq<string>, size: nat, overlap: nat, repo: string, file: string, startLine: nat)
    requires overlap < size
    ensures forall i, j :: 0 <= i < j < |Windows(lines, size, overlap, repo, file, startLine)| ==>
      Windows(lines, size, overlap, repo, file, startLine)[i].id != Windows(lines, size, overlap, repo, file, startLine)[j].id
  {
    WindowIdsIncrease(Join(lines, "\n"), 0, 0, size, size - overlap, repo, file, startLine);
  }

  // ---------------------------------------------------------------------------------------------
  // Window ids across segments
  // ---------------------------------------------------------------------------------------------

  /** Every oversize segment restarts the window counter at 0, so two oversize segments whose
      first windows are not blank give two different chunks of one file with the same id
      `repo:file:w0`. */
  lemma WindowIdsRepeat(lines: seq<string>, size: nat, overlap: nat, repo: string, file: string, m1: nat, m2: nat)
    requires overlap < size && |Boundaries(lines)| >= 2 && m1 < m2 && m2 + 1 < |Boundaries(lines) + [|lines|]|
    requires OversizeSegment(lines, Boundaries(lines) + [|lines|], m1, size)
    requires OversizeSegment(lines, Boundaries(lines) + [|lines|], m2, size)
    ensures exists c1, c2 :: SharedId(c1, c2, StructuralOf(lines, size, overlap, repo, file), WindowId(repo, file, 0))
  {
    var cuts := Boundaries(lines) + [|lines|];
    CutsOfBoundaries(lines);
    var c1 := FirstWindow(lines, cuts, m1, size, overlap, repo, file);
    var c2 := FirstWindow(lines, cuts, m2, size, overlap, repo, file);
    SegmentChunkComplete(lines, size, overlap, repo, file, m1);
    SegmentChunkComplete(lines, size, overlap, repo, file, m2);
    assert cuts[m1] < cuts[m2];
    assert SharedId(c1, c2, StructuralOf(lines, size, overlap, repo, file), WindowId(repo, file, 0));
  }

  /** Two different chunks of `cs` with the same id `id`. */
  predicate SharedId(c1: Chunk, c2: Chunk, cs: seq<Chunk>, id: ChunkId) {
    c1 in cs && c2 in cs && c1 != c2 && c1.id == id && c2.id == id
  }

  /** A segment cut by the sliding window whose first window holds a non-space character. */
  predicate OversizeSegment(lines: seq<string>, cuts: seq<nat>, m: nat, size: nat) {
    CutPoints(cuts, |lines|) && m + 1 < |cuts|
    && MinSegmentChars <= |SegmentText(lines, cuts, m)| && |SegmentText(lines, cuts, m)| > 3 * size
    && WindowText(Join(lines[cuts[m]..cuts[m + 1]], "\n"), 0, size) != ""
  }

  /** The first window of such a segment: numbered 0, starting on the segment's first line. */
  lemma FirstWindow(lines: seq<string>, cuts: seq<nat>, m: nat, size: nat, overlap: nat, repo: string, file: string)
    returns (c: Chunk)
    requires CutPoints(cuts, |lines|) && m + 1 < |cuts| && overlap < size
    requires OversizeSegment(lines, cuts, m, size)
    ensures c in SegmentWindows(lines, cuts, m, size, overlap, repo, file)
    ensures c.id == WindowId(repo, file, 0) && c.startLine == cuts[m] + 1
  {
    var text := Join(lines[cuts[m]..cuts[m + 1]], "\n");
    StripProperties(text);
    c := WindowChunkFound(text, 0, 0, size, size - overlap, repo, file, cuts[m], 0);
    WindowChunkSound(text, 0, 0, size, size - overlap, repo, file, cuts[m], c);
    assert PySlice(text, 0, 0) == "";
  }

  /** The corrected id of a window chunk of the segment starting at line `start`:
      `repo:file:start:wK`. */
  function InSegment(c: Chunk, start: nat): Chunk {
    if c.kind == Window && c.id.WindowId? then c.(id := SegmentWindowId(c.id.repo, c.id.file, start, c.id.k)) else c
  }

  /** The chunks of one segment with corrected window ids. */
  function FixedSegmentChunks(lines: seq<string>, start: nat, end: nat, size: nat, overlap: nat,
                              repo: string, file: string): (r: seq<Chunk>)
    requires start <= end <= |lines| && overlap < size
    ensures |r| == |SegmentChunks(lines, start, end, size, overlap, repo, file)|
  {
    var cs := SegmentChunks(lines, start, end, size, overlap, repo, file);
    seq(|cs|, i requires 0 <= i < |cs| => InSegment(cs[i], start))
  }

  function FixedSegmentsFrom(lines: seq<string>, cuts: seq<nat>, n: nat, size: nat, overlap: nat,
                             repo: string, file: string): seq<Chunk>
    requires CutPoints(cuts, |lines|) && n < |cuts| && overlap < size
    decreases |cuts| - n
  {
    if n + 1 == |cuts| then []
    else FixedSegmentChunks(lines, cuts[n], cuts[n + 1], size, overlap, repo, file)
         + FixedSegmentsFrom(lines, cuts, n + 1, size, overlap, repo, file)
  }

  /** `_structural_chunks` with window ids that name their segment. */
  function FixedStructuralOf(lines: seq<string>, size: nat, overlap: nat, repo: string, file: string): seq<Chunk>
    requires overlap < size
  {
    var b := Boundaries(lines);
    if |b| < 2 then []
    else
      CutsOfBoundaries(lines);
      FixedSegmentsFrom(lines, b + [|lines|], 0, size, overlap, repo, file)
  }

  /** The line an id names as its start (0 for the uncorrected window ids). */
  function IdStart(id: ChunkId): nat {
    match id
    case SegmentId(_, _, start, _) => start
    case SegmentWindowId(_, _, start, _) => start
    case WindowId(_, _, _) => 0
  }

  /** No two chunks of `cs` share an id. */
  predicate DistinctIds(cs: seq<Chunk>) {
    forall i, j :: 0 <= i < j < |cs| ==> cs[i].id != cs[j].id
  }

  /** The corrected chunks of one segment have distinct ids, none of the uncorrected window
      kind, each naming the segment's first line. */
  lemma FixedSegmentIds(lines: seq<string>, start: nat, end: nat, size: nat, overlap: nat, repo: string, file: string)
    requires start <= end <= |lines| && overlap < size
    ensures var r := FixedSegmentChunks(lines, start, end, size, overlap, repo, file);
      DistinctIds(r) && forall c :: c in r ==> !c.id.WindowId? && IdStart(c.id) == start
  {
    var cs := SegmentChunks(lines, start, end, size, overlap, repo, file);
    var r := FixedSegmentChunks(lines, start, end, size, overlap, repo, file);
    var text := Strip(Join(lines[start..end], "\n"));
    if !(text == "" || |text| < MinSegmentChars) && |text| > size * 3 {
      var joined := Join(lines[start..end], "\n");
      WindowIdsIncrease(joined, 0, 0, size, size - overlap, repo, file, start);
      forall c | c in cs ensures c.kind == Window && c.id.WindowId? {
        WindowChunkSound(joined, 0, 0, size, size - overlap, repo, file, start, c);
      }
      forall i | 0 <= i < |r| ensures r[i].id == SegmentWindowId(cs[i].id.repo, cs[i].id.file, start, cs[i].id.k) {
        assert cs[i] in cs;
      }
    }
  }

  lemma DistinctIdsAppend(a: seq<Chunk>, b: seq<Chunk>)
    requires DistinctIds(a) && DistinctIds(b)
    requires forall x, y :: x in a && y in b ==> x.id != y.id
    ensures DistinctIds(a + b)
  {
    forall i, j | 0 <= i < j < |a + b| ensures (a + b)[i].id != (a + b)[j].id {
      if j < |a| {
        assert (a + b)[i] == a[i] && (a + b)[j] == a[j];
      } else if i >= |a| {
        assert (a + b)[i] == b[i - |a|] && (a + b)[j] == b[j - |a|];
      } else {
        assert (a + b)[i] == a[i] && (a + b)[j] == b[j - |a|];
        assert a[i] in a && b[j - |a|] in b;
      }
    }
  }

  lemma {:induction false} FixedSegmentsIds(lines: seq<string>, cuts: seq<nat>, n: nat, size: nat, overlap: nat,
                                            repo: string, file: string)
    requires CutPoints(cuts, |lines|) && n < |cuts| && overlap < size
    ensures var r := FixedSegmentsFrom(lines, cuts, n, size, overlap, repo, file);
      DistinctIds(r) && forall c :: c in r ==> !c.id.WindowId? && IdStart(c.id) >= cuts[n]
    decreases |cuts| - n
  {
    if n + 1 < |cuts| {
      var head := FixedSegmentChunks(lines, cuts[n], cuts[n + 1], size, overlap, repo, file);
      var rest := FixedSegmentsFrom(lines, cuts, n + 1, size, overlap, repo, file);
      FixedSegmentIds(lines, cuts[n], cuts[n + 1], size, overlap, repo, file);
      FixedSegmentsIds(lines, cuts, n + 1, size, overlap, repo, file);
      assert cuts[n] < cuts[n + 1];
      DistinctIdsAppend(head, rest);
    }
  }

  /** With window ids that name their segment, no two chunks of a file share an id; the ids
      differ from the ones `_structural_chunks` gives only for windows. */
  lemma FixedIdsDistinct(lines: seq<string>, size: nat, overlap: nat, repo: string, file: string)
    requires overlap < size
    ensures DistinctIds(FixedStructuralOf(lines, size, overlap, repo, file))
    ensures |FixedStructuralOf(lines, size, overlap, repo, file)| == |StructuralOf(lines, size, overlap, repo, file)|
    ensures forall i :: 0 <= i < |StructuralOf(lines, size, overlap, repo, file)| ==>
      var c := StructuralOf(lines, size, overlap, repo, file)[i];
      FixedStructuralOf(lines, size, overlap, repo, file)[i] == c.(id := FixedStructuralOf(lines, size, overlap, repo, file)[i].id)
  {
    if |Boundaries(lines)| >= 2 {
      CutsOfBoundaries(lines);
      FixedSegmentsIds(lines, Boundaries(lines) + [|lines|], 0, size, overlap, repo, file);
      FixedMatches(lines, Boundaries(lines) + [|lines|], 0, size, overlap, repo, file);
    }
  }

  /** The corrected chunks are the chunks `_structural_chunks` gives, but for their ids. */
  lemma {:induction false} FixedMatches(lines: seq<string>, cuts: seq<nat>, n: nat, size: nat, overlap: nat,
                                        repo: string, file: string)
    requires CutPoints(cuts, |lines|) && n < |cuts| && overlap < size
    ensures var f := FixedSegmentsFrom(lines, cuts, n, size, overlap, repo, file);
      var s := SegmentsFrom(lines, cuts, n, size, overlap, repo, file);
      |f| == |s| && forall i :: 0 <= i < |s| ==> f[i] == s[i].(id := f[i].id)
    decreases |cuts| - n
  {
    if n + 1 < |cuts| {
      FixedMatches(lines, cuts, n + 1, size, overlap, repo, file);
      var fh := FixedSegmentChunks(lines, cuts[n], cuts[n + 1], size, overlap, repo, file);
      var sh := SegmentChunks(lines, cuts[n], cuts[n + 1], size, overlap, repo, file);
      var fr := FixedSegmentsFrom(lines, cuts, n + 1, size, overlap, repo, file);
      var sr := SegmentsFrom(lines, cuts, n + 1, size, overlap, repo, file);
      var f: seq<Chunk> := fh + fr;
      var c: seq<Chunk> := sh + sr;
      forall i | 0 <= i < |c| ensures f[i] == c[i].(id := f[i].id) {
        if i >= |sh| {
          assert f[i] == fr[i - |sh|] && c[i] == sr[i - |sh|];
        }
      }
    }
  }
}
