/** The handful of Python `str` operations the indexer, the chunkers and the query layer use,
    written out with Python's semantics (slices with negative bounds, `find` returning -1,
    `split` on one separator, `replace` scanning left to right). Case mapping and the regex
    word class are ASCII-only. */
module Text {

  // ---------------------------------------------------------------------------------------------
  // Character classes
  // ---------------------------------------------------------------------------------------------

  /** Python's `str.isspace`, which is also what `str.strip()` removes and what `\s` matches. */
  predicate IsSpace(c: char) {
    var n := c as int;
    (9 <= n <= 13) || (28 <= n <= 32) || n == 0x85 || n == 0xA0 || n == 0x1680
    || (0x2000 <= n <= 0x200A) || n == 0x2028 || n == 0x2029 || n == 0x202F
    || n == 0x205F || n == 0x3000
  }

  predicate IsAsciiLetter(c: char) {
    ('a' <= c <= 'z') || ('A' <= c <= 'Z')
  }

  predicate IsDigit(c: char) {
    '0' <= c <= '9'
  }

  /** The regex class `\w`, restricted to ASCII. */
  predicate IsWordChar(c: char) {
    IsAsciiLetter(c) || IsDigit(c) || c == '_'
  }

  function LowerChar(c: char): char {
    if 'A' <= c <= 'Z' then (c as int + 32) as char else c
  }

  function UpperChar(c: char): char {
    if 'a' <= c <= 'z' then (c as int - 32) as char else c
  }

  /** `s.lower()` on ASCII text. */
  function Lower(s: string): (r: string)
    ensures |r| == |s|
  {
    seq(|s|, i requires 0 <= i < |s| => LowerChar(s[i]))
  }

  /** `s.upper()` on ASCII text. */
  function Upper(s: string): (r: string)
    ensures |r| == |s|
  {
    seq(|s|, i requires 0 <= i < |s| => UpperChar(s[i]))
  }

  // ---------------------------------------------------------------------------------------------
  // Prefixes, suffixes, search
  // ---------------------------------------------------------------------------------------------

  predicate StartsWith(s: string, p: string) {
    |p| <= |s| && s[..|p|] == p
  }

  predicate EndsWith(s: string, p: string) {
    |p| <= |s| && s[|s| - |p|..] == p
  }

  /** `t` occurs in `s` starting at index `i`. */
  predicate OccursAt(s: string, t: string, i: int) {
    0 <= i && i + |t| <= |s| && s[i..i + |t|] == t
  }

  /** `s.find(t, start)`: the first index at or after `start` where `t` occurs, or -1. */
  function FindFrom(s: string, t: string, start: nat): (r: int)
    decreases |s| - start
    ensures r == -1 || (start <= r && OccursAt(s, t, r))
    ensures r == -1 ==> forall i :: start <= i ==> !OccursAt(s, t, i)
    ensures r != -1 ==> forall i :: start <= i < r ==> !OccursAt(s, t, i)
  {
    if start + |t| > |s| then -1
    else if s[start..start + |t|] == t then start
    else FindFrom(s, t, start + 1)
  }

  /** `s.find(t)`. */
  function Find(s: string, t: string): int {
    FindFrom(s, t, 0)
  }

  /** Python's `t in s`. */
  predicate Contains(s: string, t: string) {
    Find(s, t) >= 0
  }

  lemma ContainsIff(s: string, t: string)
    ensures Contains(s, t) <==> exists i :: OccursAt(s, t, i)
  {
  }

  /** `t in s` after lower-casing both, the query layer's case-insensitive match. */
  predicate ContainsIgnoreCase(s: string, t: string) {
    Contains(Lower(s), Lower(t))
  }

  /** `s.rfind(c, 0, end)` for one character: the last index below `end` holding `c`, or -1. */
  function RFindChar(s: string, c: char, end: nat): (r: int)
    requires end <= |s|
    ensures -1 <= r < end
    ensures r >= 0 ==> s[r] == c
    ensures forall i :: r < i < end ==> s[i] != c
  {
    if end == 0 then -1
    else if s[end - 1] == c then end - 1
    else RFindChar(s, c, end - 1)
  }

  /** The first index of `c` in `s`, or -1. */
  function IndexOfChar(s: string, c: char): (r: int)
    ensures -1 <= r < |s|
    ensures r >= 0 ==> s[r] == c && c !in s[..r]
    ensures r == -1 ==> c !in s
  {
    if s == [] then -1
    else if s[0] == c then 0
    else var k := IndexOfChar(s[1..], c); if k < 0 then -1 else k + 1
  }

  /** `s.count(c)` for one character. */
  function CountChar(s: string, c: char): (r: nat)
    ensures r <= |s|
  {
    if s == [] then 0 else CountChar(s[..|s| - 1], c) + (if s[|s| - 1] == c then 1 else 0)
  }

  // ---------------------------------------------------------------------------------------------
  // Stripping
  // ---------------------------------------------------------------------------------------------

  /** Drops the longest prefix whose characters satisfy `drop` (`str.lstrip`). */
  function TrimLeft(s: string, drop: char -> bool): (r: string)
    ensures |r| <= |s| && r == s[|s| - |r|..]
    ensures r == [] || !drop(r[0])
    ensures forall k :: 0 <= k < |s| - |r| ==> drop(s[k])
  {
    if s != [] && drop(s[0]) then TrimLeft(s[1..], drop) else s
  }

  /** Drops the longest suffix whose characters satisfy `drop` (`str.rstrip`). */
  function TrimRight(s: string, drop: char -> bool): (r: string)
    ensures |r| <= |s| && r == s[..|r|]
    ensures r == [] || !drop(r[|r| - 1])
    ensures forall k :: |r| <= k < |s| ==> drop(s[k])
  {
    if s != [] && drop(s[|s| - 1]) then TrimRight(s[..|s| - 1], drop) else s
  }

  /** `s.lstrip()`: drops leading white space. */
  function StripLeft(s: string): (r: string)
    ensures |r| <= |s|
  {
    if s != [] && IsSpace(s[0]) then StripLeft(s[1..]) else s
  }

  /** `s.rstrip()`: drops trailing white space. */
  function StripRight(s: string): (r: string)
    ensures |r| <= |s|
  {
    if s != [] && IsSpace(s[|s| - 1]) then StripRight(s[..|s| - 1]) else s
  }

  /** `s.strip()`. */
  function Strip(s: string): (r: string)
    ensures |r| <= |s|
  {
    StripRight(StripLeft(s))
  }

  /** `lstrip` keeps a suffix that starts with a non-space character and drops only white space. */
  lemma {:induction false} StripLeftShape(s: string)
    ensures StripLeft(s) == s[|s| - |StripLeft(s)|..]
    ensures StripLeft(s) == [] || !IsSpace(StripLeft(s)[0])
    ensures forall k :: 0 <= k < |s| - |StripLeft(s)| ==> IsSpace(s[k])
  {
    if s != [] && IsSpace(s[0]) {
      StripLeftShape(s[1..]);
      forall k | 0 < k < |s| - |StripLeft(s)| ensures IsSpace(s[k]) {
        assert s[k] == s[1..][k - 1];
      }
    }
  }

  /** `rstrip` keeps a prefix that ends with a non-space character and drops only white space. */
  lemma {:induction false} StripRightShape(s: string)
    ensures StripRight(s) == s[..|StripRight(s)|]
    ensures StripRight(s) == [] || !IsSpace(StripRight(s)[|StripRight(s)| - 1])
    ensures forall k :: |StripRight(s)| <= k < |s| ==> IsSpace(s[k])
  {
    if s != [] && IsSpace(s[|s| - 1]) {
      StripRightShape(s[..|s| - 1]);
    }
  }

  predicate IsQuoteChar(c: char) {
    c == '\'' || c == '"'
  }

  /** `s.strip("'\"")`. */
  function StripQuotes(s: string): string {
    TrimRight(TrimLeft(s, IsQuoteChar), IsQuoteChar)
  }

  /** Every character is white space (so `not s.strip()` holds). */
  predicate IsBlank(s: string) {
    forall i :: 0 <= i < |s| ==> IsSpace(s[i])
  }

  /** `s.strip()` is empty exactly when `s` is blank, and otherwise it is a slice of `s` that
      starts and ends with a non-space character. */
  lemma StripProperties(s: string)
    ensures Strip(s) == "" <==> IsBlank(s)
    ensures exists i :: OccursAt(s, Strip(s), i)
    ensures Strip(s) != "" ==> !IsSpace(Strip(s)[0]) && !IsSpace(Strip(s)[|Strip(s)| - 1])
  {
    var l := StripLeft(s);
    var r := StripRight(l);
    StripLeftShape(s);
    StripRightShape(l);
    assert r == s[|s| - |l|..][..|r|];
    assert r == s[|s| - |l|..|s| - |l| + |r|];
    if r == "" {
      assert l == "";
    } else {
      assert !IsSpace(l[0]);
      assert l[0] == r[0];
    }
    assert Strip(s) == r;
    var i := |s| - |l|;
    assert OccursAt(s, r, i);
  }

  // ---------------------------------------------------------------------------------------------
  // Splitting and joining
  // ---------------------------------------------------------------------------------------------

  /** `sep.join(parts)`. */
  function Join(parts: seq<string>, sep: string): string {
    if |parts| == 0 then ""
    else if |parts| == 1 then parts[0]
    else parts[0] + sep + Join(parts[1..], sep)
  }

  /** `s.split(sep)` for a one-character separator: never empty, no part holds the separator,
      and joining the parts back gives `s`. */
  function Split(s: string, sep: char): (r: seq<string>)
    decreases |s|
    ensures |r| >= 1
    ensures forall k :: 0 <= k < |r| ==> sep !in r[k]
    ensures Join(r, [sep]) == s
  {
    var i := IndexOfChar(s, sep);
    if i < 0 then [s]
    else
      var rest := Split(s[i + 1..], sep);
      assert s == s[..i] + [sep] + s[i + 1..];
      [s[..i]] + rest
  }

  /** The characters `str.splitlines` breaks at (`\r\n` counts as one break). */
  predicate IsLineBreak(c: char) {
    var n := c as int;
    (10 <= n <= 13) || (28 <= n <= 30) || n == 0x85 || n == 0x2028 || n == 0x2029
  }

  /** `s.splitlines()`: the lines of `s` without their line breaks, and no empty line after a
      final break. */
  function SplitLines(s: string): (r: seq<string>)
    decreases |s|
    ensures |r| <= |s|
    ensures forall k, j :: 0 <= k < |r| && 0 <= j < |r[k]| ==> !IsLineBreak(r[k][j])
    ensures s != "" ==> |r| >= 1
  {
    if s == "" then []
    else
      var i := FirstWhere(s, IsLineBreak);
      if i == |s| then [s]
      else
        var next := if s[i] == '\r' && i + 1 < |s| && s[i + 1] == '\n' then i + 2 else i + 1;
        [s[..i]] + SplitLines(s[next..])
  }

  /** The index of the first character satisfying `p`, or `|s|` when there is none. */
  function FirstWhere(s: string, p: char -> bool): (r: nat)
    ensures r <= |s|
    ensures r < |s| ==> p(s[r])
    ensures forall k :: 0 <= k < r ==> !p(s[k])
  {
    if s == [] || p(s[0]) then 0 else 1 + FirstWhere(s[1..], p)
  }

  /** The last part of `s.split(sep)`, i.e. `s.split(sep)[-1]`. */
  function LastPart(s: string, sep: char): (r: string)
    ensures sep !in r
    ensures EndsWith(s, r)
    ensures |r| < |s| ==> s[|s| - |r| - 1] == sep
  {
    var i := RIndexOfChar(s, sep);
    if i < 0 then s else s[i + 1..]
  }

  /** The last index of `c` in `s`, or -1. */
  function RIndexOfChar(s: string, c: char): (r: int)
    ensures -1 <= r < |s|
    ensures r >= 0 ==> s[r] == c && c !in s[r + 1..]
    ensures r == -1 ==> c !in s
  {
    if s == [] then -1
    else if s[|s| - 1] == c then |s| - 1
    else
      var init := s[..|s| - 1];
      var r := RIndexOfChar(init, c);
      assert s == init + [s[|s| - 1]];
      assert r >= 0 ==> s[r + 1..] == init[r + 1..] + [s[|s| - 1]];
      r
  }

  /** `s.split(sep)[0]`: everything before the first separator. */
  function FirstPart(s: string, sep: char): (r: string)
    ensures sep !in r && StartsWith(s, r)
  {
    var i := IndexOfChar(s, sep);
    if i < 0 then s else s[..i]
  }

  // ---------------------------------------------------------------------------------------------
  // Replacement, slicing, numbers
  // ---------------------------------------------------------------------------------------------

  /** `s.replace("//", "/")`: occurrences are found left to right without overlap, so a run of
      three slashes becomes two, not one. */
  function ReplaceDoubleSlash(s: string): (r: string)
    ensures |r| <= |s|
  {
    if |s| >= 2 && s[0] == '/' && s[1] == '/' then "/" + ReplaceDoubleSlash(s[2..])
    else if s == [] then []
    else [s[0]] + ReplaceDoubleSlash(s[1..])
  }

  predicate HasDoubleSlash(s: string) {
    exists i :: 0 <= i < |s| - 1 && s[i] == '/' && s[i + 1] == '/'
  }

  /** Text without a doubled slash is left unchanged. */
  lemma {:induction false} ReplaceDoubleSlashIdentity(s: string)
    requires !HasDoubleSlash(s)
    ensures ReplaceDoubleSlash(s) == s
  {
    if s != [] {
      forall i | 0 <= i < |s[1..]| - 1
        ensures !(s[1..][i] == '/' && s[1..][i + 1] == '/')
      {
        assert s[1..][i] == s[i + 1] && s[1..][i + 1] == s[i + 2];
      }
      ReplaceDoubleSlashIdentity(s[1..]);
      assert !(|s| >= 2 && s[0] == '/' && s[1] == '/');
    }
  }

  /** The result never contains a slash pair that the input did not already have in a longer
      run: replacing is not a full collapse. */
  lemma TripleSlashKeepsTwo()
    ensures ReplaceDoubleSlash("///") == "//"
  {
    assert "///"[2..] == "/";
    assert "/"[1..] == "";
  }

  /** Python's normalisation of one slice bound `i` against a length. */
  function SliceBound(i: int, len: nat): (r: nat)
    ensures r <= len
  {
    if i < 0 then (if i + len < 0 then 0 else i + len)
    else if i > len then len
    else i
  }

  /** `s[a:b]` with Python's treatment of negative and out-of-range bounds. */
  function PySlice(s: string, a: int, b: int): (r: string)
    ensures |r| <= |s|
    ensures 0 <= a <= b <= |s| ==> r == s[a..b]
  {
    var lo := SliceBound(a, |s|);
    var hi := SliceBound(b, |s|);
    if lo >= hi then "" else s[lo..hi]
  }

  /** `s[:n]`. */
  function Take(s: string, n: int): (r: string)
    ensures n >= 0 ==> |r| <= n && StartsWith(s, r)
    ensures n >= |s| ==> r == s
  {
    PySlice(s, 0, n)
  }

  /** The characters of `s` that satisfy `keep`, in order (`re.sub` of the complement class). */
  function Filter(s: string, keep: char -> bool): (r: string)
    ensures |r| <= |s|
    ensures forall k :: 0 <= k < |r| ==> keep(r[k])
  {
    if s == [] then [] else (if keep(s[0]) then [s[0]] else []) + Filter(s[1..], keep)
  }

  function DigitChar(d: nat): char
    requires d < 10
  {
    "0123456789"[d]
  }

  /** `str(n)` for a natural number. */
  function NatToString(n: nat): (r: string)
    ensures |r| >= 1 && forall k :: 0 <= k < |r| ==> IsDigit(r[k])
  {
    if n < 10 then [DigitChar(n)] else NatToString(n / 10) + [DigitChar(n % 10)]
  }
}
