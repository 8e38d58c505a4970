/** Concrete stand-ins for the regular expressions the indexer searches source text with.
    Each `Matcher` says what one pattern matches when anchored at a position; `SearchFrom`
    and `FindAll` give `re.search` and `re.finditer` on top of it (leftmost match first,
    scanning resumes at the end of the previous match). Character classes are ASCII. */
module Matchers {
  import opened Wrappers
  import opened Text

  /** The end of the longest run of characters satisfying `p` that starts at `i`. */
  function RunEnd(s: string, i: nat, p: char -> bool): (r: nat)
    requires i <= |s|
    decreases |s| - i
    ensures i <= r <= |s|
    ensures forall k :: i <= k < r ==> p(s[k])
    ensures r == |s| || !p(s[r])
  {
    if i < |s| && p(s[i]) then RunEnd(s, i + 1, p) else i
  }

  predicate IsQuote(c: char) {
    c == '\'' || c == '"'
  }

  predicate NotQuote(c: char) {
    !IsQuote(c)
  }

  predicate NotSpace(c: char) {
    !IsSpace(c)
  }

  predicate NotCloseBracket(c: char) {
    c != ']'
  }

  predicate NotOpenAngle(c: char) {
    c != '<'
  }

  /** A word character or a dot, the class `[\w.]`. */
  predicate IsDottedWordChar(c: char) {
    IsWordChar(c) || c == '.'
  }

  /** `i` is where a line starts (`^` under `re.MULTILINE`). */
  predicate LineStart(s: string, i: nat) {
    i == 0 || (i <= |s| && s[i - 1] == '\n')
  }

  /** The literal `lit` occurs at `i`, compared without case when `ignoreCase` holds. */
  predicate LitAt(s: string, i: nat, lit: string, ignoreCase: bool) {
    i + |lit| <= |s|
    && (if ignoreCase then Lower(s[i..i + |lit|]) == Lower(lit) else s[i..i + |lit|] == lit)
  }

  /** `s[i..e]` is what `["']([^"']+)["']` matches at `i`. */
  predicate QuotedSpan(s: string, i: nat, e: nat) {
    i + 3 <= e <= |s| && IsQuote(s[i]) && IsQuote(s[e - 1])
    && forall k :: i < k < e - 1 ==> !IsQuote(s[k])
  }

  /** The text of a quoted literal and the position just after its closing quote. */
  datatype Capture = Capture(text: string, end: nat)

  /** The quoted literal starting at `i`, if there is one: the opening and closing quotes need
      not be the same character, and the text between them is not empty. */
  function QuotedAt(s: string, i: nat): (r: Option<Capture>)
    requires i <= |s|
    ensures r.Some? ==> QuotedSpan(s, i, r.value.end) && r.value.text == s[i + 1..r.value.end - 1]
    ensures r.None? ==> forall e :: !QuotedSpan(s, i, e)
  {
    if i < |s| && IsQuote(s[i]) then
      var k := RunEnd(s, i + 1, NotQuote);
      if k < |s| && k > i + 1 then Some(Capture(s[i + 1..k], k + 1)) else None
    else None
  }

  /** What follows the opening parenthesis of a route call: `\s*(?:value\s*=\s*)?` when
      `valuePrefix` holds, `\s*` otherwise, then a quoted literal. */
  function ArgAt(s: string, j: nat, valuePrefix: bool): (r: Option<Capture>)
    requires j <= |s|
    ensures r.Some? ==> j + 3 <= r.value.end <= |s|
  {
    var a := RunEnd(s, j, IsSpace);
    if valuePrefix && LitAt(s, a, "value", false) then
      var b := RunEnd(s, a + 5, IsSpace);
      if b < |s| && s[b] == '=' then QuotedAt(s, RunEnd(s, b + 1, IsSpace)) else None
    else QuotedAt(s, a)
  }

  /** One alternative of a call pattern: the literal text up to and including `(`, and the
      value its capture group takes. */
  datatype Head = Head(text: string, verb: string)

  /** A match: its two capture groups (empty when the pattern has fewer), its start and end. */
  datatype Hit = Hit(first: string, second: string, start: nat, end: nat)

  /** A name-classification token; `boundary` asks for `\b` after it. */
  datatype Token = Token(text: string, boundary: bool)

  datatype Matcher =
      /** `(?:head1|head2|...)\s*(?:value\s*=\s*)?["']([^"']+)["']` */
    | Call(heads: seq<Head>, ignoreCase: bool, valuePrefix: bool)
      /** `["']([^"']+)["']` */
    | Quoted
      /** Spring's generic `@RequestMapping(` with an optional `method = RequestMethod.X`
          somewhere before the first quoted literal. */
    | RequestMapping
      /** `method\s*=\s*RequestMethod\.(\w+)` */
    | MethodRef
      /** `methods\s*=\s*\[([^\]]+)\]` */
    | MethodsList
      /** `<groupId>([^<]+)</groupId>\s*<artifactId>([^<]+)</artifactId>` */
    | Coordinates
      /** `^\s+(\S+)\s+v(\S+)` under `re.MULTILINE` */
    | Require
      /** `(?:kw1|kw2|...)\s+(\w+)`, with `[\w.]` instead of `\w` when `dotted`, anchored at
          line starts when `lineStart`, and followed by `\s+trailer` when `trailer` is set. */
    | Declaration(keywords: seq<string>, lineStart: bool, dotted: bool, trailer: string)
      /** `(?:tok1|tok2|...)`, case-insensitive, with `\b` after the tokens that ask for it. */
    | Tokens(tokens: seq<Token>)

  function Rank(m: Matcher): nat {
    if m.RequestMapping? then 1 else 0
  }

  function CallAt(s: string, i: nat, heads: seq<Head>, ignoreCase: bool, valuePrefix: bool, k: nat): (r: Option<Hit>)
    requires i <= |s|
    decreases |heads| - k
    ensures r.Some? ==> r.value.start == i < r.value.end <= |s|
  {
    if k >= |heads| then None
    else if LitAt(s, i, heads[k].text, ignoreCase) then
      match ArgAt(s, i + |heads[k].text|, valuePrefix)
      case Some(c) => Some(Hit(heads[k].verb, c.text, i, c.end))
      case None => CallAt(s, i, heads, ignoreCase, valuePrefix, k + 1)
    else CallAt(s, i, heads, ignoreCase, valuePrefix, k + 1)
  }

  /** A character of the captured name: `[\w.]` when `dotted`, `\w` otherwise. */
  predicate NameChar(dotted: bool, c: char) {
    if dotted then IsDottedWordChar(c) else IsWordChar(c)
  }

  function DeclarationAt(s: string, i: nat, keywords: seq<string>, dotted: bool, trailer: string, k: nat): (r: Option<Hit>)
    requires i <= |s|
    decreases |keywords| - k
    ensures r.Some? ==> r.value.start == i < r.value.end <= |s|
    ensures r.Some? ==> r.value.first != "" && forall j :: 0 <= j < |r.value.first| ==> NameChar(dotted, r.value.first[j])
  {
    if k >= |keywords| then None
    else
      var next := DeclarationAt(s, i, keywords, dotted, trailer, k + 1);
      if !LitAt(s, i, keywords[k], false) then next
      else
        var a := RunEnd(s, i + |keywords[k]|, IsSpace);
        var b := if dotted then RunEnd(s, a, IsDottedWordChar) else RunEnd(s, a, IsWordChar);
        if a == i + |keywords[k]| || b == a then next
        else if trailer == "" then Some(Hit(s[a..b], "", i, b))
        else
          var c := RunEnd(s, b, IsSpace);
          if c > b && LitAt(s, c, trailer, false) then Some(Hit(s[a..b], "", i, c + |trailer|)) else next
  }

  predicate TokenAt(s: string, i: nat, t: Token) {
    |t.text| > 0 && LitAt(s, i, t.text, true)
    && (!t.boundary || i + |t.text| == |s| || !IsWordChar(s[i + |t.text|]))
  }

  function TokensAt(s: string, i: nat, tokens: seq<Token>): (r: Option<Hit>)
    requires i <= |s|
    ensures r.Some? ==> r.value.start == i < r.value.end <= |s|
    ensures r.Some? <==> exists k :: 0 <= k < |tokens| && TokenAt(s, i, tokens[k])
  {
    if tokens == [] then None
    else if TokenAt(s, i, tokens[0]) then Some(Hit("", "", i, i + |tokens[0].text|))
    else
      var r := TokensAt(s, i, tokens[1..]);
      assert forall k :: 1 <= k < |tokens| ==> tokens[k] == tokens[1..][k - 1];
      r
  }

  /** What matcher `m` matches when anchored at `i`. */
  function MatchAt(s: string, i: nat, m: Matcher): (r: Option<Hit>)
    requires i <= |s|
    decreases Rank(m), 1
    ensures r.Some? ==> r.value.start == i < r.value.end <= |s|
  {
    match m
    case Call(heads, ignoreCase, valuePrefix) => CallAt(s, i, heads, ignoreCase, valuePrefix, 0)
    case Quoted => QuotedMatch(s, i)
    case RequestMapping => RequestMappingAt(s, i)
    case MethodRef => MethodRefAt(s, i)
    case MethodsList => MethodsListAt(s, i)
    case Coordinates => CoordinatesAt(s, i)
    case Require => RequireAt(s, i)
    case Declaration(keywords, lineStart, dotted, trailer) =>
      if lineStart && !LineStart(s, i) then None
      else DeclarationAt(s, i, keywords, dotted, trailer, 0)
    case Tokens(tokens) => TokensAt(s, i, tokens)
  }

  function QuotedMatch(s: string, i: nat): (r: Option<Hit>)
    requires i <= |s|
    ensures r.Some? ==> r.value.start == i < r.value.end <= |s|
  {
    match QuotedAt(s, i)
    case Some(c) => Some(Hit("", c.text, i, c.end))
    case None => None
  }

  /** The verb, when a `method = RequestMethod.X` occurs before some quoted literal, and the
      first quoted literal after it; otherwise no verb and the first quoted literal. */
  function RequestMappingAt(s: string, i: nat): (r: Option<Hit>)
    requires i <= |s|
    decreases 1, 0
    ensures r.Some? ==> r.value.start == i < r.value.end <= |s|
  {
    if !LitAt(s, i, "@RequestMapping(", false) then None
    else
      var a := RunEnd(s, i + 16, IsSpace);
      var verb := SearchFrom(s, MethodRef, a);
      var afterVerb := if verb.Some? then SearchFrom(s, Quoted, verb.value.end) else None;
      if afterVerb.Some? then Some(Hit(verb.value.first, afterVerb.value.second, i, afterVerb.value.end))
      else
        match SearchFrom(s, Quoted, a)
        case Some(q) => Some(Hit("", q.second, i, q.end))
        case None => None
  }

  function MethodRefAt(s: string, i: nat): (r: Option<Hit>)
    requires i <= |s|
    ensures r.Some? ==> r.value.start == i < r.value.end <= |s|
  {
    if !LitAt(s, i, "method", false) then None
    else
      var b := RunEnd(s, i + 6, IsSpace);
      if b == |s| || s[b] != '=' then None
      else
        var c := RunEnd(s, b + 1, IsSpace);
        if !LitAt(s, c, "RequestMethod.", false) then None
        else
          var e := RunEnd(s, c + 14, IsWordChar);
          if e == c + 14 then None else Some(Hit(s[c + 14..e], "", i, e))
  }

  function MethodsListAt(s: string, i: nat): (r: Option<Hit>)
    requires i <= |s|
    ensures r.Some? ==> r.value.start == i < r.value.end <= |s|
  {
    if !LitAt(s, i, "methods", false) then None
    else
      var b := RunEnd(s, i + 7, IsSpace);
      if b == |s| || s[b] != '=' then None
      else
        var c := RunEnd(s, b + 1, IsSpace);
        if c == |s| || s[c] != '[' then None
        else
          var e := RunEnd(s, c + 1, NotCloseBracket);
          if e == c + 1 || e == |s| then None else Some(Hit(s[c + 1..e], "", i, e + 1))
  }

  function CoordinatesAt(s: string, i: nat): (r: Option<Hit>)
    requires i <= |s|
    ensures r.Some? ==> r.value.start == i < r.value.end <= |s|
  {
    if !LitAt(s, i, "<groupId>", false) then None
    else
      var g := RunEnd(s, i + 9, NotOpenAngle);
      if g == i + 9 || !LitAt(s, g, "</groupId>", false) then None
      else
        var a := RunEnd(s, g + 10, IsSpace);
        if !LitAt(s, a, "<artifactId>", false) then None
        else
          var e := RunEnd(s, a + 12, NotOpenAngle);
          if e == a + 12 || !LitAt(s, e, "</artifactId>", false) then None
          else Some(Hit(s[i + 9..g], s[a + 12..e], i, e + 13))
  }

  function RequireAt(s: string, i: nat): (r: Option<Hit>)
    requires i <= |s|
    ensures r.Some? ==> r.value.start == i < r.value.end <= |s|
    ensures r.Some? ==>
      LineStart(s, i) && r.value.first != "" && r.value.second != ""
      && (forall k :: 0 <= k < |r.value.first| ==> !IsSpace(r.value.first[k]))
      && (forall k :: 0 <= k < |r.value.second| ==> !IsSpace(r.value.second[k]))
  {
    if !LineStart(s, i) then None
    else
      var a := RunEnd(s, i, IsSpace);
      var b := RunEnd(s, a, NotSpace);
      var c := RunEnd(s, b, IsSpace);
      if a == i || b == a || c == b || c == |s| || s[c] != 'v' then None
      else
        var d := RunEnd(s, c + 1, NotSpace);
        if d == c + 1 then None else Some(Hit(s[a..b], s[c + 1..d], i, d))
  }

  /** `re.search` from position `i`: the match at the smallest position at or after `i`. */
  function SearchFrom(s: string, m: Matcher, i: nat): (r: Option<Hit>)
    requires i <= |s|
    decreases Rank(m), |s| - i + 2
    ensures r.Some? ==> i <= r.value.start <= |s| && MatchAt(s, r.value.start, m) == r
    ensures forall k :: i <= k <= |s| && (r.None? || k < r.value.start) ==> MatchAt(s, k, m).None?
  {
    var here := MatchAt(s, i, m);
    if here.Some? then here
    else if i == |s| then None
    else SearchFrom(s, m, i + 1)
  }

  /** `re.search(pattern, s)`. */
  function Search(s: string, m: Matcher): Option<Hit> {
    SearchFrom(s, m, 0)
  }

  /** `re.finditer` from position `i`: matches in order, each search resuming where the
      previous match ended. */
  function FindAll(s: string, m: Matcher, i: nat): (r: seq<Hit>)
    requires i <= |s|
    decreases |s| - i
    ensures forall k :: 0 <= k < |r| ==> i <= r[k].start < r[k].end <= |s|
    ensures forall k :: 0 <= k < |r| - 1 ==> r[k].end <= r[k + 1].start
    ensures forall k :: 0 <= k < |r| ==> MatchAt(s, r[k].start, m) == Some(r[k])
  {
    match SearchFrom(s, m, i)
    case None => []
    case Some(h) => [h] + FindAll(s, m, h.end)
  }

  /** The first match of `FindAll` is the `re.search` match, and nothing matches before it. */
  lemma FindAllStartsWithSearch(s: string, m: Matcher)
    ensures Search(s, m).None? <==> FindAll(s, m, 0) == []
    ensures Search(s, m).Some? ==> FindAll(s, m, 0)[0] == Search(s, m).value
  {
  }

  /** The two quote characters delimit the captured text of a `Quoted` match. */
  lemma {:induction false} QuotedSearchFinds(s: string, i: nat, e: nat)
    requires QuotedSpan(s, i, e)
    ensures SearchFrom(s, Quoted, 0).Some?
    ensures SearchFrom(s, Quoted, 0).value.start <= i
  {
    assert MatchAt(s, i, Quoted).Some?;
  }
}
