/** The chunks the code chunker produces and its sliding window (`_sliding_window_chunks`):
    windows of a fixed number of characters, each starting a fixed step after the previous
    one, whose stripped text becomes a chunk unless it is blank. */
module Windowing {
  import opened Text

  // ---------------------------------------------------------------------------------------------
  // Chunks
  // ---------------------------------------------------------------------------------------------

  datatype ChunkKind = Structural | Window

  /** A chunk id: `repo:file:start-end` for a structural segment, `repo:file:wK` for the
      window with counter K; `repo:file:start:wK`, naming the segment a window belongs to, is
      only used by the corrected window ids of `ChunkProperties`. */
  datatype ChunkId =
    | SegmentId(repo: string, file: string, start: nat, end: nat)
    | WindowId(repo: string, file: string, k: nat)
    | SegmentWindowId(repo: string, file: string, start: nat, k: nat)
  {
    /** The id as the string the vector store receives. */
    function Text(): string {
      match this
      case SegmentId(repo, file, start, end) => repo + ":" + file + ":" + NatToString(start) + "-" + NatToString(end)
      case WindowId(repo, file, k) => repo + ":" + file + ":w" + NatToString(k)
      case SegmentWindowId(repo, file, start, k) => repo + ":" + file + ":" + NatToString(start) + ":w" + NatToString(k)
    }
  }

  /** A chunk: its id, its text and its metadata (line numbers are 1-based). */
  datatype Chunk = Chunk(id: ChunkId, text: string, repo: string, file: string, startLine: nat, endLine: nat, kind: ChunkKind)

  // ---------------------------------------------------------------------------------------------
  // Sliding window
  // ---------------------------------------------------------------------------------------------

  /** The first index in `[i, hi)` holding a non-space character, or `hi`. */
  function SkipSpaces(text: string, i: nat, hi: nat): (r: nat)
    requires i <= hi <= |text|
    decreases hi - i
    ensures i <= r <= hi
  {
    if i < hi && IsSpace(text[i]) then SkipSpaces(text, i + 1, hi) else i
  }

  /** The end of `text[lo:hi]` once trailing white space is dropped. */
  function TrimEnd(text: string, lo: nat, hi: nat): (r: nat)
    requires lo <= hi <= |text|
    decreases hi - lo
    ensures lo <= r <= hi
  {
    if lo < hi && IsSpace(text[hi - 1]) then TrimEnd(text, lo, hi - 1) else hi
  }

  /** The stripped text of the window of `size` characters at `pos`, found by index:
      `WindowTextIsStrip` shows it is `text[pos:pos+size].strip()`. */
  function WindowText(text: string, pos: nat, size: nat): (r: string)
    ensures |r| <= size
  {
    var hi := if pos + size <= |text| then pos + size else |text|;
    if pos >= hi then ""
    else
      var lo := SkipSpaces(text, pos, hi);
      text[lo..TrimEnd(text, lo, hi)]
  }

  lemma {:induction false} StripLeftSlice(text: string, i: nat, hi: nat)
    requires i <= hi <= |text|
    ensures StripLeft(text[i..hi]) == text[SkipSpaces(text, i, hi)..hi]
    decreases hi - i
  {
    if i < hi && IsSpace(text[i]) {
      assert text[i..hi][1..] == text[i + 1..hi];
      StripLeftSlice(text, i + 1, hi);
    }
  }

  lemma {:induction false} StripRightSlice(text: string, lo: nat, hi: nat)
    requires lo <= hi <= |text|
    ensures StripRight(text[lo..hi]) == text[lo..TrimEnd(text, lo, hi)]
    decreases hi - lo
  {
    if lo < hi && IsSpace(text[hi - 1]) {
      assert text[lo..hi][..hi - 1 - lo] == text[lo..hi - 1];
      StripRightSlice(text, lo, hi - 1);
    }
  }

  /** The window text is Python's `text[pos:pos+size].strip()`. */
  lemma WindowTextIsStrip(text: string, pos: nat, size: nat)
    ensures WindowText(text, pos, size) == Strip(PySlice(text, pos, pos + size))
  {
    var hi := if pos + size <= |text| then pos + size else |text|;
    if pos < hi {
      assert PySlice(text, pos, pos + size) == text[pos..hi];
      StripLeftSlice(text, pos, hi);
      StripRightSlice(text, SkipSpaces(text, pos, hi), hi);
    } else {
      assert PySlice(text, pos, pos + size) == "";
    }
  }

  /** The chunk of window number `k`, which starts at `pos`, unless its text is blank: its line
      numbers count the line breaks before the window (`text[:pos]`) and inside its text. */
  function WindowChunk(text: string, pos: nat, k: nat, size: nat, repo: string, file: string, startLine: nat): seq<Chunk> {
    var t := WindowText(text, pos, size);
    if t == "" then []
    else [Chunk(WindowId(repo, file, k), t, repo, file,
                startLine + CountChar(PySlice(text, 0, pos), '\n') + 1,
                startLine + CountChar(PySlice(text, 0, pos), '\n') + CountChar(t, '\n') + 1, Window)]
  }

  /** The chunks of the windows from the one at `pos`, numbered from `k`, each `step` after the
      previous one while the start lies inside the text. */
  function WindowsFrom(text: string, pos: nat, k: nat, size: nat, step: nat, repo: string, file: string, startLine: nat): seq<Chunk>
    requires step > 0
    decreases |text| - pos
  {
    if pos >= |text| then []
    else WindowChunk(text, pos, k, size, repo, file, startLine) + WindowsFrom(text, pos + step, k + 1, size, step, repo, file, startLine)
  }

  /** `_sliding_window_chunks`: the lines are joined back with line breaks and a window of
      `size` characters moves on by `size - overlap` characters at a time, counting from 0. */
  function Windows(lines: seq<string>, size: nat, overlap: nat, repo: string, file: string, startLine: nat): seq<Chunk>
    requires overlap < size
  {
    WindowsFrom(Join(lines, "\n"), 0, 0, size, size - overlap, repo, file, startLine)
  }

  /** A window start inside the text contributes its chunk, if any, before the later ones. */
  lemma WindowsFromFirst(text: string, pos: nat, k: nat, size: nat, step: nat, repo: string, file: string, startLine: nat)
    requires step > 0 && pos < |text|
    ensures WindowsFrom(text, pos, k, size, step, repo, file, startLine)
      == WindowChunk(text, pos, k, size, repo, file, startLine) + WindowsFrom(text, pos + step, k + 1, size, step, repo, file, startLine)
  {
  }

  /** Chunks collected so far, then the next window's, then the later ones. */
  lemma Regroup(done: seq<Chunk>, next: seq<Chunk>, later: seq<Chunk>)
    ensures done + (next + later) == (done + next) + later
  {
  }

  /** A walk over the windows starts with nothing collected and all windows ahead. */
  lemma WalkBegins(text: string, size: nat, step: nat, repo: string, file: string, startLine: nat)
    requires step > 0
    ensures [] + WindowsFrom(text, 0, 0, size, step, repo, file, startLine) == WindowsFrom(text, 0, 0, size, step, repo, file, startLine)
  {
  }

  /** Collecting the chunk of window `k` at `pos` leaves the windows after it ahead. */
  lemma WalkAdvances(text: string, pos: nat, k: nat, size: nat, step: nat, repo: string, file: string, startLine: nat,
                     done: seq<Chunk>, c: seq<Chunk>)
    requires step > 0 && pos < |text|
    requires done + WindowsFrom(text, pos, k, size, step, repo, file, startLine) == WindowsFrom(text, 0, 0, size, step, repo, file, startLine)
    requires c == WindowChunk(text, pos, k, size, repo, file, startLine)
    ensures (done + c) + WindowsFrom(text, pos + step, k + 1, size, step, repo, file, startLine)
      == WindowsFrom(text, 0, 0, size, step, repo, file, startLine)
  {
    WindowsFromFirst(text, pos, k, size, step, repo, file, startLine);
    Regroup(done, c, WindowsFrom(text, pos + step, k + 1, size, step, repo, file, startLine));
  }

  /** Once the start leaves the text, everything has been collected. */
  lemma WalkEnds(text: string, pos: nat, k: nat, size: nat, step: nat, repo: string, file: string, startLine: nat, done: seq<Chunk>)
    requires step > 0 && pos >= |text|
    requires done + WindowsFrom(text, pos, k, size, step, repo, file, startLine) == WindowsFrom(text, 0, 0, size, step, repo, file, startLine)
    ensures done == WindowsFrom(text, 0, 0, size, step, repo, file, startLine)
  {
    assert done + [] == done;
  }

  // ---------------------------------------------------------------------------------------------
  // Which windows become chunks
  // ---------------------------------------------------------------------------------------------

  lemma NextMultiple(n: nat, step: nat)
    ensures step + n * step == (n + 1) * step
  {
  }

  /** `c` is the chunk of the window starting at `start`: that window's text, which is not
      blank, with line numbers counted from the line breaks before and inside it. */
  predicate ChunkOfWindow(c: Chunk, text: string, start: nat, size: nat, startLine: nat) {
    c.kind == Window && c.text != "" && c.text == WindowText(text, start, size)
    && c.startLine == startLine + CountChar(PySlice(text, 0, start), '\n') + 1
    && c.endLine == c.startLine + CountChar(c.text, '\n')
  }

  /** Window `k` at `pos` gives one chunk, numbered `k`, exactly when its text is not blank. */
  lemma WindowChunkIs(text: string, pos: nat, k: nat, size: nat, repo: string, file: string, startLine: nat)
    ensures |WindowChunk(text, pos, k, size, repo, file, startLine)| <= 1
    ensures WindowChunk(text, pos, k, size, repo, file, startLine) != [] <==> WindowText(text, pos, size) != ""
    ensures forall c :: c in WindowChunk(text, pos, k, size, repo, file, startLine) ==>
      c.id == WindowId(repo, file, k) && c.repo == repo && c.file == file
  {
  }

  /** Where window `j` starts, counting windows from the one at `pos`. */
  function WindowStart(pos: nat, j: nat, step: nat): nat
    decreases j
  {
    if j == 0 then pos else WindowStart(pos + step, j - 1, step)
  }

  /** Window `j` starts `j * step` characters after `pos`. */
  lemma {:induction false} WindowStartIs(pos: nat, j: nat, step: nat)
    ensures WindowStart(pos, j, step) == pos + j * step
    decreases j
  {
    if j > 0 {
      WindowStartIs(pos + step, j - 1, step);
      NextMultiple(j - 1, step);
    }
  }

  /** Every chunk is numbered from `k` on, and names the repository and file. */
  lemma {:induction false} WindowChunkIds(text: string, pos: nat, k: nat, size: nat, step: nat, repo: string, file: string, startLine: nat)
    requires step > 0
    ensures forall c :: c in WindowsFrom(text, pos, k, size, step, repo, file, startLine) ==>
      c.repo == repo && c.file == file && c.id.WindowId? && c.id.repo == repo && c.id.file == file && k <= c.id.k
    decreases |text| - pos
  {
    if pos < |text| {
      WindowChunkIds(text, pos + step, k + 1, size, step, repo, file, startLine);
    }
  }

  /** A chunk numbered `k + j` is the chunk of window `j`, which lies inside the text. */
  lemma {:induction false} WindowChunkSound(text: string, pos: nat, k: nat, size: nat, step: nat, repo: string, file: string, startLine: nat, c: Chunk)
    requires step > 0 && c in WindowsFrom(text, pos, k, size, step, repo, file, startLine)
    ensures c.id.WindowId? && k <= c.id.k
    ensures WindowStart(pos, c.id.k - k, step) < |text| && ChunkOfWindow(c, text, WindowStart(pos, c.id.k - k, step), size, startLine)
    decreases |text| - pos
  {
    if c in WindowChunk(text, pos, k, size, repo, file, startLine) {
      FirstChunkSound(text, pos, k, size, step, repo, file, startLine, c);
    } else {
      WindowChunkSound(text, pos + step, k + 1, size, step, repo, file, startLine, c);
      LaterChunkSound(text, pos, k, size, step, startLine, c);
    }
  }

  /** The chunk of the first window is window 0's. */
  lemma FirstChunkSound(text: string, pos: nat, k: nat, size: nat, step: nat, repo: string, file: string, startLine: nat, c: Chunk)
    requires c in WindowChunk(text, pos, k, size, repo, file, startLine)
    ensures c.id.WindowId? && k <= c.id.k
    ensures WindowStart(pos, c.id.k - k, step) < |text| && ChunkOfWindow(c, text, WindowStart(pos, c.id.k - k, step), size, startLine)
  {
    assert c.id.k - k == 0;
  }

  /** Window `j` after the next start is window `j + 1` after this one. */
  lemma LaterChunkSound(text: string, pos: nat, k: nat, size: nat, step: nat, startLine: nat, c: Chunk)
    requires c.id.WindowId? && k + 1 <= c.id.k
    requires WindowStart(pos + step, c.id.k - (k + 1), step) < |text|
    requires ChunkOfWindow(c, text, WindowStart(pos + step, c.id.k - (k + 1), step), size, startLine)
    ensures WindowStart(pos, c.id.k - k, step) < |text| && ChunkOfWindow(c, text, WindowStart(pos, c.id.k - k, step), size, startLine)
  {
    assert WindowStart(pos, c.id.k - k, step) == WindowStart(pos + step, c.id.k - (k + 1), step);
  }

  /** Every window inside the text whose text is not blank has its chunk, numbered by its
      position among all windows, blank ones included. */
  lemma WindowChunksComplete(text: string, pos: nat, k: nat, size: nat, step: nat, repo: string, file: string, startLine: nat, j: nat)
    requires step > 0 && WindowStart(pos, j, step) < |text| && WindowText(text, WindowStart(pos, j, step), size) != ""
    ensures exists c :: c in WindowsFrom(text, pos, k, size, step, repo, file, startLine) && c.id == WindowId(repo, file, k + j)
  {
    var c := WindowChunkFound(text, pos, k, size, step, repo, file, startLine, j);
  }

  /** The chunk of window `j`, found by walking the windows from the one at `pos`. */
  lemma {:induction false} WindowChunkFound(text: string, pos: nat, k: nat, size: nat, step: nat, repo: string, file: string, startLine: nat, j: nat)
    returns (c: Chunk)
    requires step > 0 && WindowStart(pos, j, step) < |text| && WindowText(text, WindowStart(pos, j, step), size) != ""
    ensures c in WindowsFrom(text, pos, k, size, step, repo, file, startLine) && c.id == WindowId(repo, file, k + j)
    decreases j
  {
    WindowStartFrom(pos, j, step);
    if j == 0 {
      WindowChunkIs(text, pos, k, size, repo, file, startLine);
      c := WindowChunk(text, pos, k, size, repo, file, startLine)[0];
      InFirstWindow(text, pos, k, size, step, repo, file, startLine, c);
    } else {
      c := WindowChunkFound(text, pos + step, k + 1, size, step, repo, file, startLine, j - 1);
      assert k + 1 + (j - 1) == k + j;
      InLaterWindows(text, pos, k, size, step, repo, file, startLine, c);
    }
  }

  /** No window starts before the first one. */
  lemma {:induction false} WindowStartFrom(pos: nat, j: nat, step: nat)
    ensures WindowStart(pos, j, step) >= pos
    decreases j
  {
    if j > 0 {
      WindowStartFrom(pos + step, j - 1, step);
    }
  }

  lemma InFirstWindow(text: string, pos: nat, k: nat, size: nat, step: nat, repo: string, file: string, startLine: nat, c: Chunk)
    requires step > 0 && pos < |text| && c in WindowChunk(text, pos, k, size, repo, file, startLine)
    ensures c in WindowsFrom(text, pos, k, size, step, repo, file, startLine)
  {
  }

  lemma InLaterWindows(text: string, pos: nat, k: nat, size: nat, step: nat, repo: string, file: string, startLine: nat, c: Chunk)
    requires step > 0 && pos < |text| && c in WindowsFrom(text, pos + step, k + 1, size, step, repo, file, startLine)
    ensures c in WindowsFrom(text, pos, k, size, step, repo, file, startLine)
  {
  }

  /** Window counters strictly increase along `w`. */
  predicate CountersIncrease(w: seq<Chunk>) {
    forall i, j :: 0 <= i < j < |w| ==> w[i].id.WindowId? && w[j].id.WindowId? && w[i].id.k < w[j].id.k
  }

  /** Putting the chunk of window `n` before chunks of later windows keeps counters increasing. */
  lemma PrependKeepsIncreasing(first: seq<Chunk>, rest: seq<Chunk>, n: nat)
    requires |first| <= 1 && forall c :: c in first ==> c.id.WindowId? && c.id.k == n
    requires CountersIncrease(rest)
    requires forall c :: c in rest ==> c.id.WindowId? && c.id.k > n
    ensures CountersIncrease(first + rest)
  {
    var w := first + rest;
    forall i, j | 0 <= i < j < |w|
      ensures w[i].id.WindowId? && w[j].id.WindowId? && w[i].id.k < w[j].id.k
    {
      assert w[j] == rest[j - |first|] && w[j] in rest;
      if i < |first| {
        assert w[i] == first[0] && w[i] in first;
      } else {
        assert w[i] == rest[i - |first|];
      }
    }
  }

  /** Window counters strictly increase along the chunk list, so one call never repeats an id. */
  lemma {:induction false} WindowIdsIncrease(text: string, pos: nat, k: nat, size: nat, step: nat, repo: string, file: string, startLine: nat)
    requires step > 0
    ensures CountersIncrease(WindowsFrom(text, pos, k, size, step, repo, file, startLine))
    decreases |text| - pos
  {
    if pos < |text| {
      WindowIdsIncrease(text, pos + step, k + 1, size, step, repo, file, startLine);
      WindowChunkIds(text, pos + step, k + 1, size, step, repo, file, startLine);
      PrependKeepsIncreasing(WindowChunk(text, pos, k, size, repo, file, startLine),
                             WindowsFrom(text, pos + step, k + 1, size, step, repo, file, startLine), k);
    }
  }

  /** A window holding a non-space character has a non-blank stripped text. */
  lemma NonBlankWindow(text: string, pos: nat, size: nat, p: nat)
    requires pos <= p < pos + size && p < |text| && !IsSpace(text[p])
    ensures WindowText(text, pos, size) != ""
  {
    var hi := if pos + size <= |text| then pos + size else |text|;
    var window := PySlice(text, pos, pos + size);
    assert window == text[pos..hi];
    assert window[p - pos] == text[p];
    StripProperties(window);
    WindowTextIsStrip(text, pos, size);
  }

  /** Window number `d / step` covers the character `d` places after the first start. */
  lemma CoveringWindow(d: nat, step: nat, size: nat)
    requires 0 < step <= size
    ensures (d / step) * step <= d < (d / step) * step + size
  {
  }

  /** When windows overlap or touch (`step <= size`), a non-space character at or after `pos`
      lies in some window, which therefore gives a chunk. */
  lemma WindowsFindNonBlank(text: string, pos: nat, k: nat, size: nat, step: nat, repo: string, file: string, startLine: nat, p: nat)
    requires 0 < step <= size
    requires pos <= p < |text| && !IsSpace(text[p])
    ensures WindowsFrom(text, pos, k, size, step, repo, file, startLine) != []
  {
    var j := (p - pos) / step;
    CoveringWindow(p - pos, step, size);
    WindowStartIs(pos, j, step);
    NonBlankWindow(text, WindowStart(pos, j, step), size, p);
    var c := WindowChunkFound(text, pos, k, size, step, repo, file, startLine, j);
  }
}
