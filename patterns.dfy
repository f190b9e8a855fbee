/** Tool-call extraction from assistant text (src/patterns.py). The two regular expressions

      <tool\s+name="(?P<name>[^"]+)"[^>]*>(?P<body>.*?)</tool>     (DOTALL)
      <arg\s+name="(?P<key>[^"]+)">(?P<value>.*?)</arg>             (DOTALL)

    leave the matcher no real choice: each repetition is followed by a character it cannot consume
    (`\s+` by `n`, `[^"]+` by `"`, `[^>]*` by `>`), and the lazy body stops at the first closing tag.
    So each is written as a left-to-right scanner, `ParseAt`, and `Scan` plays `finditer`. Both are
    tied to declarative statements of what a match is (`MatchesAt`) and what `finditer` returns
    (`IsScan`). */
module Patterns {
  import opened Wrappers
  import opened Text

  /** One of the two tag patterns: the opening literal, the closing literal, and whether other
      attributes (`[^>]*`) may follow the name attribute. */
  datatype TagPattern = TagPattern(open: string, close: string, attrs: bool)

  const ToolPattern := TagPattern("<tool", "</tool>", true)
  const ArgPattern := TagPattern("<arg", "</arg>", false)

  /** The literal between the whitespace and the captured name. */
  const NameAttr := "name=\""

  /** Positions of one match in the scanned text: the captured name is `text[nameStart..nameEnd]`,
      the lazy body `text[bodyStart..bodyEnd]`, and the match ends at `end`. */
  datatype TagMatch = TagMatch(start: nat, nameStart: nat, nameEnd: nat, bodyStart: nat, bodyEnd: nat, end: nat)

  datatype ToolCall = ToolCall(name: string, args: map<string, string>)

  /** `lit` occurs in `text` at position `p`. */
  predicate At(text: string, p: int, lit: string) {
    0 <= p <= |text| && lit <= text[p..]
  }

  predicate NotQuote(c: char) { c != '"' }

  predicate NotGt(c: char) { c != '>' }

  /** What a match of the pattern at `p` is, position by position. */
  ghost predicate MatchesAt(pat: TagPattern, text: string, p: nat, m: TagMatch) {
    && m.start == p
    && At(text, p, pat.open)
    // \s+ followed by name="
    && p + |pat.open| < m.nameStart - |NameAttr|
    && At(text, m.nameStart - |NameAttr|, NameAttr)
    && (forall k :: p + |pat.open| <= k < m.nameStart - |NameAttr| ==> IsSpace(text[k]))
    // [^"]+ followed by "
    && m.nameStart < m.nameEnd < |text|
    && (forall k :: m.nameStart <= k < m.nameEnd ==> text[k] != '"')
    && text[m.nameEnd] == '"'
    // [^>]* followed by > (for the argument pattern, > right after the quote)
    && m.nameEnd + 2 <= m.bodyStart <= |text|
    && (forall k :: m.nameEnd < k < m.bodyStart - 1 ==> text[k] != '>')
    && text[m.bodyStart - 1] == '>'
    && (pat.attrs || m.bodyStart == m.nameEnd + 2)
    // .*? followed by the closing literal
    && m.bodyStart <= m.bodyEnd
    && (forall k :: m.bodyStart <= k < m.bodyEnd ==> !At(text, k, pat.close))
    && At(text, m.bodyEnd, pat.close)
    && m.end == m.bodyEnd + |pat.close|
  }

  /** The longest run of characters satisfying `keep` from `p` on: where it ends. */
  function Span(text: string, p: nat, keep: char -> bool): (q: nat)
    requires p <= |text|
    ensures p <= q <= |text|
    decreases |text| - p
  {
    if p < |text| && keep(text[p]) then Span(text, p + 1, keep) else p
  }

  /** The first occurrence of `lit` at or after `p`. */
  function FindFrom(text: string, p: nat, lit: string): (r: Option<nat>)
    requires p <= |text|
    ensures r.Some? ==> p <= r.value <= |text|
    decreases |text| - p
  {
    if At(text, p, lit) then Some(p)
    else if p == |text| then None
    else FindFrom(text, p + 1, lit)
  }

  /** Tries the pattern at position `p` only, as `re.match` from `p` would: the opening literal,
      then the whitespace run. */
  function ParseAt(pat: TagPattern, text: string, p: nat): (r: Option<TagMatch>)
    requires p <= |text|
  {
    if !At(text, p, pat.open) then None
    else ParseName(pat, text, p, Span(text, p + |pat.open|, IsSpace))
  }

  /** After the whitespace run ending at `wsEnd`: `name="`, then the name up to the next quote. */
  function ParseName(pat: TagPattern, text: string, p: nat, wsEnd: nat): (r: Option<TagMatch>)
    requires p + |pat.open| <= wsEnd <= |text|
  {
    if wsEnd == p + |pat.open| || !At(text, wsEnd, NameAttr) then None
    else
      var nameStart := wsEnd + |NameAttr|;
      ParseAttrs(pat, text, p, nameStart, Span(text, nameStart, NotQuote))
  }

  /** After the name ending at `nameEnd`: the closing quote, then (tool tags only) anything but `>`. */
  function ParseAttrs(pat: TagPattern, text: string, p: nat, nameStart: nat, nameEnd: nat): (r: Option<TagMatch>)
    requires nameStart <= nameEnd <= |text|
  {
    if nameEnd == nameStart || nameEnd == |text| then None
    else ParseBody(pat, text, p, nameStart, nameEnd,
                   if pat.attrs then Span(text, nameEnd + 1, NotGt) else nameEnd + 1)
  }

  /** At `gt`, expected to hold `>`: the lazy body up to the first closing literal. */
  function ParseBody(pat: TagPattern, text: string, p: nat, nameStart: nat, nameEnd: nat, gt: nat): (r: Option<TagMatch>)
    requires nameEnd < gt <= |text|
  {
    if gt == |text| || text[gt] != '>' then None
    else
      match FindFrom(text, gt + 1, pat.close)
      case None => None
      case Some(bodyEnd) => Some(TagMatch(p, nameStart, nameEnd, gt + 1, bodyEnd, bodyEnd + |pat.close|))
  }

  /** Whatever `ParseAt` finds is a match. */
  lemma {:induction false} ParseAtSound(pat: TagPattern, text: string, p: nat, m: TagMatch)
    requires p <= |text| && ParseAt(pat, text, p) == Some(m)
    ensures MatchesAt(pat, text, p, m)
  {
    var wsEnd := Span(text, p + |pat.open|, IsSpace);
    SpanIsRun(text, p + |pat.open|, IsSpace);
    ParseNameSound(pat, text, p, wsEnd, m);
  }

  lemma {:induction false} ParseNameSound(pat: TagPattern, text: string, p: nat, wsEnd: nat, m: TagMatch)
    requires At(text, p, pat.open) && p + |pat.open| <= wsEnd <= |text|
    requires forall k :: p + |pat.open| <= k < wsEnd ==> IsSpace(text[k])
    requires ParseName(pat, text, p, wsEnd) == Some(m)
    ensures MatchesAt(pat, text, p, m)
  {
    var nameStart := wsEnd + |NameAttr|;
    SpanIsRun(text, nameStart, NotQuote);
    ParseAttrsSound(pat, text, p, nameStart, Span(text, nameStart, NotQuote), m);
  }

  lemma {:induction false} ParseAttrsSound(pat: TagPattern, text: string, p: nat, nameStart: nat, nameEnd: nat, m: TagMatch)
    requires At(text, p, pat.open) && p + |pat.open| < nameStart - |NameAttr|
    requires At(text, nameStart - |NameAttr|, NameAttr)
    requires forall k :: p + |pat.open| <= k < nameStart - |NameAttr| ==> IsSpace(text[k])
    requires nameStart <= nameEnd <= |text|
    requires forall k :: nameStart <= k < nameEnd ==> NotQuote(text[k])
    requires nameEnd == |text| || !NotQuote(text[nameEnd])
    requires ParseAttrs(pat, text, p, nameStart, nameEnd) == Some(m)
    ensures MatchesAt(pat, text, p, m)
  {
    var gt := if pat.attrs then Span(text, nameEnd + 1, NotGt) else nameEnd + 1;
    SpanIsRun(text, nameEnd + 1, NotGt);
    ParseBodySound(pat, text, p, nameStart, nameEnd, gt, m);
  }

  lemma {:induction false} ParseBodySound(pat: TagPattern, text: string, p: nat, nameStart: nat, nameEnd: nat, gt: nat, m: TagMatch)
    requires At(text, p, pat.open) && p + |pat.open| < nameStart - |NameAttr|
    requires At(text, nameStart - |NameAttr|, NameAttr)
    requires forall k :: p + |pat.open| <= k < nameStart - |NameAttr| ==> IsSpace(text[k])
    requires nameStart < nameEnd < gt <= |text| && text[nameEnd] == '"'
    requires forall k :: nameStart <= k < nameEnd ==> NotQuote(text[k])
    requires forall k :: nameEnd + 1 <= k < gt ==> NotGt(text[k])
    requires pat.attrs || gt == nameEnd + 1
    requires ParseBody(pat, text, p, nameStart, nameEnd, gt) == Some(m)
    ensures MatchesAt(pat, text, p, m)
  {
    FindFromIsFirst(text, gt + 1, pat.close);
    MatchesAtIntro(pat, text, p, m);
  }

  /** `MatchesAt`, one requirement per part of the pattern. */
  lemma {:induction false} MatchesAtIntro(pat: TagPattern, text: string, p: nat, m: TagMatch)
    requires m.start == p && At(text, p, pat.open)
    requires p + |pat.open| < m.nameStart - |NameAttr| && At(text, m.nameStart - |NameAttr|, NameAttr)
    requires forall k :: p + |pat.open| <= k < m.nameStart - |NameAttr| ==> IsSpace(text[k])
    requires m.nameStart < m.nameEnd < |text| && text[m.nameEnd] == '"'
    requires forall k :: m.nameStart <= k < m.nameEnd ==> NotQuote(text[k])
    requires m.nameEnd + 2 <= m.bodyStart <= |text| && text[m.bodyStart - 1] == '>'
    requires forall k :: m.nameEnd + 1 <= k < m.bodyStart - 1 ==> NotGt(text[k])
    requires pat.attrs || m.bodyStart == m.nameEnd + 2
    requires m.bodyStart <= m.bodyEnd && At(text, m.bodyEnd, pat.close)
    requires forall k :: m.bodyStart <= k < m.bodyEnd ==> !At(text, k, pat.close)
    requires m.end == m.bodyEnd + |pat.close|
    ensures MatchesAt(pat, text, p, m)
  {
  }

  lemma {:induction false} SpanIsRun(text: string, p: nat, keep: char -> bool)
    requires p <= |text|
    ensures forall k :: p <= k < Span(text, p, keep) ==> keep(text[k])
    ensures Span(text, p, keep) == |text| || !keep(text[Span(text, p, keep)])
    decreases |text| - p
  {
    if p < |text| && keep(text[p]) {
      SpanIsRun(text, p + 1, keep);
    }
  }

  lemma {:induction false} FindFromIsFirst(text: string, p: nat, lit: string)
    requires p <= |text|
    ensures FindFrom(text, p, lit).Some? ==> At(text, FindFrom(text, p, lit).value, lit)
    ensures FindFrom(text, p, lit).Some? ==> forall k :: p <= k < FindFrom(text, p, lit).value ==> !At(text, k, lit)
    ensures FindFrom(text, p, lit).None? ==> forall k :: p <= k <= |text| ==> !At(text, k, lit)
    decreases |text| - p
  {
    if !At(text, p, lit) && p < |text| {
      FindFromIsFirst(text, p + 1, lit);
    }
  }

  /** A run is determined by where it starts: `Span` ends at the first character `keep` rejects. */
  lemma {:induction false} SpanEndsAt(text: string, p: nat, keep: char -> bool, q: nat)
    requires p <= q <= |text|
    requires forall k :: p <= k < q ==> keep(text[k])
    requires q == |text| || !keep(text[q])
    ensures Span(text, p, keep) == q
  {
    var r := Span(text, p, keep);
    SpanIsRun(text, p, keep);
  }

  lemma {:induction false} FindFromFinds(text: string, p: nat, lit: string, q: nat)
    requires p <= q <= |text|
    requires At(text, q, lit)
    requires forall k :: p <= k < q ==> !At(text, k, lit)
    ensures FindFrom(text, p, lit) == Some(q)
  {
    FindFromIsFirst(text, p, lit);
  }

  /** Whatever a match at `p` looks like, `ParseAt` finds exactly it: the pattern has at most one
      match at each position, and the scanner misses none. */
  lemma {:induction false} ParseAtComplete(pat: TagPattern, text: string, p: nat, m: TagMatch)
    requires p <= |text|
    requires MatchesAt(pat, text, p, m)
    ensures ParseAt(pat, text, p) == Some(m)
  {
    SpacesOfMatch(pat, text, p, m);
    NameOfMatch(pat, text, p, m);
    AttrsOfMatch(pat, text, p, m);
    BodyOfMatch(pat, text, p, m);
    ParseAtSteps(pat, text, p, m);
  }

  lemma {:induction false} SpacesOfMatch(pat: TagPattern, text: string, p: nat, m: TagMatch)
    requires MatchesAt(pat, text, p, m)
    ensures Span(text, p + |pat.open|, IsSpace) == m.nameStart - |NameAttr|
  {
    var attrStart := m.nameStart - |NameAttr|;
    assert text[attrStart] == text[attrStart..][0] == 'n';
    SpanEndsAt(text, p + |pat.open|, IsSpace, attrStart);
  }

  lemma {:induction false} NameOfMatch(pat: TagPattern, text: string, p: nat, m: TagMatch)
    requires MatchesAt(pat, text, p, m)
    ensures Span(text, m.nameStart, NotQuote) == m.nameEnd
  {
    SpanEndsAt(text, m.nameStart, NotQuote, m.nameEnd);
  }

  lemma {:induction false} AttrsOfMatch(pat: TagPattern, text: string, p: nat, m: TagMatch)
    requires MatchesAt(pat, text, p, m)
    ensures pat.attrs ==> Span(text, m.nameEnd + 1, NotGt) == m.bodyStart - 1
  {
    if pat.attrs {
      SpanEndsAt(text, m.nameEnd + 1, NotGt, m.bodyStart - 1);
    }
  }

  lemma {:induction false} BodyOfMatch(pat: TagPattern, text: string, p: nat, m: TagMatch)
    requires MatchesAt(pat, text, p, m)
    ensures FindFrom(text, m.bodyStart, pat.close) == Some(m.bodyEnd)
  {
    FindFromFinds(text, m.bodyStart, pat.close, m.bodyEnd);
  }

  /** The scanner's steps, each taken from where the previous one stopped. */
  lemma {:induction false} ParseAtSteps(pat: TagPattern, text: string, p: nat, m: TagMatch)
    requires MatchesAt(pat, text, p, m)
    requires Span(text, p + |pat.open|, IsSpace) == m.nameStart - |NameAttr|
    requires Span(text, m.nameStart, NotQuote) == m.nameEnd
    requires pat.attrs ==> Span(text, m.nameEnd + 1, NotGt) == m.bodyStart - 1
    requires FindFrom(text, m.bodyStart, pat.close) == Some(m.bodyEnd)
    ensures ParseAt(pat, text, p) == Some(m)
  {
    ParseBodyStep(pat, text, p, m);
    ParseAttrsStep(pat, text, p, m);
    ParseNameStep(pat, text, p, m);
  }

  lemma {:induction false} ParseBodyStep(pat: TagPattern, text: string, p: nat, m: TagMatch)
    requires MatchesAt(pat, text, p, m)
    requires FindFrom(text, m.bodyStart, pat.close) == Some(m.bodyEnd)
    ensures ParseBody(pat, text, p, m.nameStart, m.nameEnd, m.bodyStart - 1) == Some(m)
  {
  }

  lemma {:induction false} ParseAttrsStep(pat: TagPattern, text: string, p: nat, m: TagMatch)
    requires MatchesAt(pat, text, p, m)
    requires pat.attrs ==> Span(text, m.nameEnd + 1, NotGt) == m.bodyStart - 1
    requires ParseBody(pat, text, p, m.nameStart, m.nameEnd, m.bodyStart - 1) == Some(m)
    ensures ParseAttrs(pat, text, p, m.nameStart, m.nameEnd) == Some(m)
  {
  }

  lemma {:induction false} ParseNameStep(pat: TagPattern, text: string, p: nat, m: TagMatch)
    requires At(text, p, pat.open)
    requires p + |pat.open| < m.nameStart - |NameAttr| && m.nameEnd < |text|
    requires At(text, m.nameStart - |NameAttr|, NameAttr)
    requires Span(text, p + |pat.open|, IsSpace) == m.nameStart - |NameAttr|
    requires Span(text, m.nameStart, NotQuote) == m.nameEnd
    requires ParseAttrs(pat, text, p, m.nameStart, m.nameEnd) == Some(m)
    ensures ParseAt(pat, text, p) == Some(m)
  {
    var wsEnd := m.nameStart - |NameAttr|;
    assert ParseName(pat, text, p, wsEnd) == ParseAttrs(pat, text, p, m.nameStart, m.nameEnd);
    assert ParseAt(pat, text, p) == ParseName(pat, text, p, wsEnd);
  }

  /** `finditer` from position `p`: try the pattern at each position in turn; after a match, go on
      from where it ended. */
  function Scan(pat: TagPattern, text: string, p: nat): (ms: seq<TagMatch>)
    requires p <= |text|
    decreases |text| - p
  {
    match ParseAt(pat, text, p)
    case Some(m) =>
      ParseAtSound(pat, text, p, m);
      [m] + Scan(pat, text, m.end)
    case None => if p == |text| then [] else Scan(pat, text, p + 1)
  }

  /** The pattern matches at no position in `[lo, hi)`. */
  ghost predicate NoMatchBetween(pat: TagPattern, text: string, lo: nat, hi: nat) {
    forall q: nat, m: TagMatch :: lo <= q < hi ==> !MatchesAt(pat, text, q, m)
  }

  /** What `finditer` from `p` returns, stated without a scanner: the first element is the match at
      the leftmost position at or after `p` where the pattern matches, the rest is what `finditer`
      returns from its end, and the sequence is empty when the pattern matches nowhere from `p` on. */
  ghost predicate IsScan(pat: TagPattern, text: string, p: nat, ms: seq<TagMatch>)
    decreases |ms|
  {
    if ms == [] then NoMatchBetween(pat, text, p, |text| + 1)
    else
      && p <= ms[0].start
      && NoMatchBetween(pat, text, p, ms[0].start)
      && MatchesAt(pat, text, ms[0].start, ms[0])
      && IsScan(pat, text, ms[0].end, ms[1..])
  }

  /** Where `ParseAt` finds nothing, the pattern does not match. */
  lemma {:induction false} NoMatchWhereParseFails(pat: TagPattern, text: string, q: nat)
    requires q <= |text| && ParseAt(pat, text, q).None?
    ensures forall m :: !MatchesAt(pat, text, q, m)
  {
    forall m | MatchesAt(pat, text, q, m) ensures false {
      ParseAtComplete(pat, text, q, m);
    }
  }

  /** The scanner meets the declarative statement. */
  lemma {:induction false} ScanIsFinditer(pat: TagPattern, text: string, p: nat)
    requires p <= |text|
    ensures IsScan(pat, text, p, Scan(pat, text, p))
    decreases |text| - p
  {
    var next := ScanStep(pat, text, p);
    if next <= |text| {
      ScanIsFinditer(pat, text, next);
    }
  }

  /** One step of the scanner: where it goes on from `p`, and that meeting the statement from there
      meets it from `p`. */
  lemma {:induction false} ScanStep(pat: TagPattern, text: string, p: nat) returns (next: nat)
    requires p <= |text|
    ensures p < next
    ensures next <= |text| && IsScan(pat, text, next, Scan(pat, text, next)) ==> IsScan(pat, text, p, Scan(pat, text, p))
    ensures next > |text| ==> IsScan(pat, text, p, Scan(pat, text, p))
  {
    if ParseAt(pat, text, p).Some? {
      var m := ParseAt(pat, text, p).value;
      ParseAtSound(pat, text, p, m);
      next := m.end;
      ScanTakeStep(pat, text, p, m);
    } else {
      next := p + 1;
      ScanSkipStep(pat, text, p);
    }
  }

  /** A match at `p` followed by what `finditer` returns from its end is what it returns from `p`. */
  lemma {:induction false} ScanTakeStep(pat: TagPattern, text: string, p: nat, m: TagMatch)
    requires p <= |text| && ParseAt(pat, text, p) == Some(m) && MatchesAt(pat, text, p, m)
    ensures m.end <= |text|
    ensures IsScan(pat, text, m.end, Scan(pat, text, m.end)) ==> IsScan(pat, text, p, Scan(pat, text, p))
  {
    var rest := Scan(pat, text, m.end);
    assert Scan(pat, text, p) == [m] + rest;
    assert ([m] + rest)[1..] == rest;
  }

  /** A position where the pattern does not match adds nothing to what `finditer` returns. */
  lemma {:induction false} ScanSkipStep(pat: TagPattern, text: string, p: nat)
    requires p <= |text| && ParseAt(pat, text, p).None?
    ensures p < |text| && IsScan(pat, text, p + 1, Scan(pat, text, p + 1)) ==> IsScan(pat, text, p, Scan(pat, text, p))
    ensures p == |text| ==> IsScan(pat, text, p, Scan(pat, text, p))
  {
    NoMatchWhereParseFails(pat, text, p);
    if p == |text| {
      assert NoMatchBetween(pat, text, p, |text| + 1);
    }
  }

  /** ... and is the only sequence that does. */
  lemma {:induction false} FinditerIsUnique(pat: TagPattern, text: string, p: nat, ms: seq<TagMatch>)
    requires p <= |text|
    requires IsScan(pat, text, p, ms)
    ensures ms == Scan(pat, text, p)
    decreases |text| - p
  {
    if ms != [] && ms[0].start == p {
      ScanTakesMatch(pat, text, p, ms[0]);
      FinditerIsUnique(pat, text, ms[0].end, ms[1..]);
    } else {
      ScanSkips(pat, text, p, ms);
      if p < |text| {
        FinditerIsUnique(pat, text, p + 1, ms);
      }
    }
  }

  /** A match at `p` is the scanner's next element. */
  lemma {:induction false} ScanTakesMatch(pat: TagPattern, text: string, p: nat, m: TagMatch)
    requires p <= |text| && MatchesAt(pat, text, p, m)
    ensures p < m.end <= |text|
    ensures Scan(pat, text, p) == [m] + Scan(pat, text, m.end)
  {
    ParseAtComplete(pat, text, p, m);
  }

  /** When the next element of a `finditer` result does not start at `p`, the scanner moves past `p`. */
  lemma {:induction false} ScanSkips(pat: TagPattern, text: string, p: nat, ms: seq<TagMatch>)
    requires p <= |text| && IsScan(pat, text, p, ms)
    requires ms == [] || ms[0].start != p
    ensures p == |text| ==> ms == [] && Scan(pat, text, p) == []
    ensures p < |text| ==> IsScan(pat, text, p + 1, ms) && Scan(pat, text, p) == Scan(pat, text, p + 1)
  {
    if ParseAt(pat, text, p).Some? {
      ParseAtSound(pat, text, p, ParseAt(pat, text, p).value);
      assert false;
    }
  }

  /** Everything `finditer` returns is a match, the matches come out left to right, and they never
      overlap. */
  lemma {:induction false} ScanOrdered(pat: TagPattern, text: string, p: nat, ms: seq<TagMatch>)
    requires IsScan(pat, text, p, ms)
    ensures forall i :: 0 <= i < |ms| ==> p <= ms[i].start < ms[i].end && MatchesAt(pat, text, ms[i].start, ms[i])
    ensures forall i, j :: 0 <= i < j < |ms| ==> ms[i].end <= ms[j].start
    decreases |ms|
  {
    if ms != [] {
      var rest := ms[1..];
      ScanOrdered(pat, text, ms[0].end, rest);
      forall i | 1 <= i < |ms| ensures ms[0].end <= ms[i].start {
        assert ms[i] == rest[i - 1];
      }
    }
  }

  // ---------------------------------------------------------------------------------------------
  // extract_tool_calls

  /** `lit` occurs somewhere in `s`. */
  predicate Contains(s: string, lit: string) {
    exists k :: 0 <= k <= |s| && At(s, k, lit)
  }

  /** The captured groups of a match lie inside the text. */
  predicate InText(text: string, m: TagMatch) {
    m.nameStart <= m.nameEnd <= |text| && m.bodyStart <= m.bodyEnd <= |text|
  }

  /** What every match guarantees about its groups: they lie inside the text, the name is a
      non-empty run without quotes, and the lazy body holds no closing literal. */
  predicate GoodMatch(pat: TagPattern, text: string, m: TagMatch) {
    && InText(text, m)
    && m.nameStart < m.nameEnd
    && '"' !in text[m.nameStart..m.nameEnd]
    && !Contains(text[m.bodyStart..m.bodyEnd], pat.close)
  }

  lemma {:induction false} MatchIsGood(pat: TagPattern, text: string, p: nat, m: TagMatch)
    requires pat.close != [] && MatchesAt(pat, text, p, m)
    ensures GoodMatch(pat, text, m)
  {
    var name := text[m.nameStart..m.nameEnd];
    forall k | 0 <= k < |name| ensures name[k] != '"' {
      assert name[k] == text[m.nameStart + k];
    }
    var body := text[m.bodyStart..m.bodyEnd];
    forall j | 0 <= j <= |body| ensures !At(body, j, pat.close) {
      if j < |body| {
        assert !At(text, m.bodyStart + j, pat.close);
        assert body[j..] <= text[m.bodyStart + j..];
      }
    }
  }

  /** `finditer` over the whole text. */
  function FindAll(pat: TagPattern, text: string): (ms: seq<TagMatch>)
    requires pat.close != []
    ensures forall i :: 0 <= i < |ms| ==> GoodMatch(pat, text, ms[i])
  {
    FindAllGood(pat, text);
    Scan(pat, text, 0)
  }

  lemma {:induction false} FindAllGood(pat: TagPattern, text: string)
    requires pat.close != []
    ensures forall i :: 0 <= i < |Scan(pat, text, 0)| ==> GoodMatch(pat, text, Scan(pat, text, 0)[i])
  {
    var ms := Scan(pat, text, 0);
    ScanIsFinditer(pat, text, 0);
    ScanOrdered(pat, text, 0, ms);
    forall i | 0 <= i < |ms| ensures GoodMatch(pat, text, ms[i]) {
      MatchIsGood(pat, text, ms[i].start, ms[i]);
    }
  }

  /** The argument dictionary of one tool body: `{key: value.strip()}` over the argument matches in
      order, so a key given twice keeps its last value. */
  function Collect(body: string, ms: seq<TagMatch>): map<string, string>
    requires forall i :: 0 <= i < |ms| ==> InText(body, ms[i])
  {
    if ms == [] then map[]
    else
      var m := ms[|ms| - 1];
      Collect(body, ms[..|ms| - 1])[KeyOf(body, m) := ValueOf(body, m)]
  }

  /** The `key` group of an argument match. */
  function KeyOf(body: string, m: TagMatch): string
    requires InText(body, m)
  {
    body[m.nameStart..m.nameEnd]
  }

  /** The `value` group of an argument match, stripped. */
  function ValueOf(body: string, m: TagMatch): string
    requires InText(body, m)
  {
    Strip(body[m.bodyStart..m.bodyEnd])
  }

  function ArgsOf(body: string): map<string, string> {
    Collect(body, FindAll(ArgPattern, body))
  }

  function CallOf(text: string, m: TagMatch): ToolCall
    requires InText(text, m)
  {
    ToolCall(text[m.nameStart..m.nameEnd], ArgsOf(text[m.bodyStart..m.bodyEnd]))
  }

  /** `extract_tool_calls(text)`: one `(name, args)` pair per tool match, in order. */
  function ExtractToolCalls(text: string): (calls: seq<ToolCall>)
    ensures |calls| == |FindAll(ToolPattern, text)|
    ensures forall i :: 0 <= i < |calls| ==> calls[i].name != [] && '"' !in calls[i].name
  {
    var ms := FindAll(ToolPattern, text);
    seq(|ms|, i requires 0 <= i < |ms| => CallOf(text, ms[i]))
  }

  /** A key is in the dictionary exactly when some argument match names it. */
  lemma {:induction false} CollectDomain(body: string, ms: seq<TagMatch>, key: string)
    requires forall i :: 0 <= i < |ms| ==> InText(body, ms[i])
    ensures key in Collect(body, ms) <==> exists i :: 0 <= i < |ms| && KeyOf(body, ms[i]) == key
  {
    if ms != [] {
      var init := ms[..|ms| - 1];
      CollectDomain(body, init, key);
      if KeyOf(body, ms[|ms| - 1]) != key {
        if i :| 0 <= i < |ms| && KeyOf(body, ms[i]) == key {
          assert init[i] == ms[i];
        }
      } else {
        assert key in Collect(body, ms);
      }
    }
  }

  /** The value of a key is the stripped value of the last argument match naming it. */
  lemma {:induction false} CollectLastWins(body: string, ms: seq<TagMatch>, key: string) returns (i: nat)
    requires forall j :: 0 <= j < |ms| ==> InText(body, ms[j])
    requires key in Collect(body, ms)
    ensures i < |ms| && KeyOf(body, ms[i]) == key && Collect(body, ms)[key] == ValueOf(body, ms[i])
    ensures forall j :: i < j < |ms| ==> KeyOf(body, ms[j]) != key
  {
    var init, last := ms[..|ms| - 1], ms[|ms| - 1];
    assert Collect(body, ms) == Collect(body, init)[KeyOf(body, last) := ValueOf(body, last)];
    if KeyOf(body, last) == key {
      i := |ms| - 1;
    } else {
      forall j | 0 <= j < |init| ensures InText(body, init[j]) {
        assert init[j] == ms[j];
      }
      i := CollectLastWins(body, init, key);
      assert ms[i] == init[i];
      forall j | i < j < |ms| ensures KeyOf(body, ms[j]) != key {
        if j < |ms| - 1 {
          assert ms[j] == init[j];
        }
      }
    }
  }

  /** Every argument key is a non-empty run without quotes, and every value has no whitespace at
      either end. */
  lemma {:induction false} ArgsWellFormed(body: string, key: string)
    requires key in ArgsOf(body)
    ensures key != [] && '"' !in key
    ensures var v := ArgsOf(body)[key]; v == [] || (!IsSpace(v[0]) && !IsSpace(v[|v| - 1]))
  {
    CollectWellFormed(body, FindAll(ArgPattern, body), key);
  }

  lemma {:induction false} CollectWellFormed(body: string, ms: seq<TagMatch>, key: string)
    requires forall j :: 0 <= j < |ms| ==> InText(body, ms[j]) && GoodMatch(ArgPattern, body, ms[j])
    requires key in Collect(body, ms)
    ensures key != [] && '"' !in key
    ensures var v := Collect(body, ms)[key]; v == [] || (!IsSpace(v[0]) && !IsSpace(v[|v| - 1]))
  {
    var i := CollectLastWins(body, ms, key);
    var m := ms[i];
    assert GoodMatch(ArgPattern, body, m);
    assert KeyOf(body, m) == key;
    assert Collect(body, ms)[key] == Strip(body[m.bodyStart..m.bodyEnd]);
  }

  /** No opening or no closing tool tag in the text: no tool calls. */
  lemma {:induction false} NoToolTagNoCalls(text: string)
    requires !Contains(text, ToolPattern.open) || !Contains(text, ToolPattern.close)
    ensures ExtractToolCalls(text) == []
  {
    var ms := Scan(ToolPattern, text, 0);
    ScanIsFinditer(ToolPattern, text, 0);
    ScanOrdered(ToolPattern, text, 0, ms);
    if ms != [] {
      assert false;
    }
  }

  /** Where no opening literal fits, the scan is over. */
  lemma {:induction false} ScanAtEnd(pat: TagPattern, text: string)
    requires pat.open != []
    ensures Scan(pat, text, |text|) == []
  {
    assert !At(text, |text|, pat.open);
  }

  /** An occurrence of `lit` fixes the characters it covers. */
  lemma {:induction false} AtChars(text: string, k: nat, lit: string)
    requires At(text, k, lit)
    ensures forall j :: k <= j < k + |lit| ==> text[j] == lit[j - k]
  {
    forall j | k <= j < k + |lit| ensures text[j] == lit[j - k] {
      assert text[k..][j - k] == lit[j - k];
    }
  }

  /** The text of one tag: the opening literal, whitespace, the name attribute, further attributes
      (tool tags only), `>`, the body and the closing literal. */
  function TagText(pat: TagPattern, ws: string, name: string, attrs: string, body: string): string {
    pat.open + (ws + (NameAttr + (name + ("\"" + (attrs + (">" + (body + pat.close)))))))
  }

  /** Whether `close` first occurs in `body + close` at its end, i.e. the lazy body is all of `body`. */
  predicate EndsAtClose(body: string, close: string) {
    forall k :: 0 <= k < |body| ==> !At(body + close, k, close)
  }

  /** The pieces of a tag that the pattern accepts: some whitespace, a non-empty name without a
      quote, further attributes only where the pattern allows them and without a `>`, and a body
      in which the closing literal first occurs at its end. */
  predicate WellFormedTag(pat: TagPattern, ws: string, name: string, attrs: string, body: string) {
    ws != [] && IsBlank(ws) && name != [] && '"' !in name && '>' !in attrs && (pat.attrs || attrs == [])
    && EndsAtClose(body, pat.close)
  }

  /** A text holding `a + b` at `o` holds `a` there, then `b`. */
  lemma {:induction false} AtSplit(text: string, o: nat, a: string, b: string)
    requires At(text, o, a + b)
    ensures At(text, o, a) && At(text, o + |a|, b)
  {
    assert text[o..][..|a|] == a by { assert (a + b)[..|a|] == a; }
    assert text[o + |a|..][..|b|] == b by {
      assert text[o + |a|..] == text[o..][|a|..];
      assert (a + b)[|a|..] == b;
    }
  }

  /** Inside an occurrence of `outer`, an occurrence of `piece` in `outer` is one in the text. */
  lemma {:induction false} AtWithin(text: string, o: nat, outer: string, i: nat, piece: string)
    requires At(text, o, outer) && i + |piece| <= |outer|
    ensures At(outer, i, piece) <==> At(text, o + i, piece)
  {
    assert text[o + i..][..|piece|] == outer[i..][..|piece|] by {
      assert text[o..][..|outer|] == outer;
      forall j | 0 <= j < |piece| ensures text[o + i..][j] == outer[i..][j] {
        assert text[o + i + j] == text[o..][..|outer|][i + j];
      }
    }
  }

  /** The lazy body of a tag text stops where `body` ends. */
  lemma {:induction false} BodyScan(text: string, o: nat, body: string, close: string)
    requires At(text, o, body + close) && EndsAtClose(body, close)
    ensures forall k :: o <= k < o + |body| ==> !At(text, k, close)
    ensures At(text, o, body) && At(text, o + |body|, close)
  {
    AtSplit(text, o, body, close);
    forall k | o <= k < o + |body| ensures !At(text, k, close) {
      AtWithin(text, o, body + close, k - o, close);
    }
  }

  /** `text` is exactly the text of the tag with these pieces. */
  predicate IsTagText(pat: TagPattern, text: string, ws: string, name: string, attrs: string, body: string) {
    SameText(text, TagText(pat, ws, name, attrs, body))
  }

  /** Equality of two texts, character by character from the left. Stated by recursion so that a
      proof unfolds it only as far as it needs to. */
  predicate SameText(a: string, b: string)
    decreases |a|
  {
    if a == [] then b == [] else b != [] && a[0] == b[0] && SameText(a[1..], b[1..])
  }

  lemma {:induction false} SameTextIsEquality(a: string, b: string)
    ensures SameText(a, b) <==> a == b
    decreases |a|
  {
    if a != [] && b != [] {
      SameTextIsEquality(a[1..], b[1..]);
      if a[0] == b[0] && a[1..] == b[1..] {
        assert a == [a[0]] + a[1..] && b == [b[0]] + b[1..];
      }
    }
  }

  /** A text that is the tag text holds it from its start. */
  lemma {:induction false} TagTextAt(pat: TagPattern, text: string, ws: string, name: string, attrs: string, body: string)
    requires IsTagText(pat, text, ws, name, attrs, body)
    ensures |text| == |TagText(pat, ws, name, attrs, body)| && At(text, 0, TagText(pat, ws, name, attrs, body))
  {
    SameTextIsEquality(text, TagText(pat, ws, name, attrs, body));
    assert text[0..][..|text|] == text;
  }

  lemma {:induction false} TagTextIs(pat: TagPattern, ws: string, name: string, attrs: string, body: string)
    ensures IsTagText(pat, TagText(pat, ws, name, attrs, body), ws, name, attrs, body)
  {
    SameTextIsEquality(TagText(pat, ws, name, attrs, body), TagText(pat, ws, name, attrs, body));
  }

  /** `finditer` over a text made of one well-formed tag, with text before and after it in which no
      opening literal starts, finds exactly that tag, with its name and body as written. */
  lemma {:induction false} SingleTag(pat: TagPattern, text: string, pre: string, post: string,
                                     ws: string, name: string, attrs: string, body: string)
    returns (m: TagMatch)
    requires pat.open != []
    requires WellFormedTag(pat, ws, name, attrs, body)
    requires text == pre + TagText(pat, ws, name, attrs, body) + post
    requires forall k :: 0 <= k < |pre| ==> !At(text, k, pat.open)
    requires forall k :: |text| - |post| <= k < |text| ==> !At(text, k, pat.open)
    ensures m.start == |pre| && m.end == |text| - |post| && InText(text, m)
    ensures Scan(pat, text, 0) == [m]
    ensures text[m.nameStart..m.nameEnd] == name && text[m.bodyStart..m.bodyEnd] == body
  {
    var tag := TagText(pat, ws, name, attrs, body);
    TagTextIs(pat, ws, name, attrs, body);
    m := TagMatchIn(pat, text, pre, tag, post, ws, name, attrs, body);
    ScanSkipsNoOpen(pat, text, 0, |pre|);
    ScanTakesMatch(pat, text, |pre|, m);
    ScanSkipsNoOpen(pat, text, m.end, |text|);
    ScanAtEnd(pat, text);
  }

  /** The tag, read where it stands in the text. */
  lemma {:induction false} TagMatchIn(pat: TagPattern, text: string, pre: string, tag: string, post: string,
                                      ws: string, name: string, attrs: string, body: string)
    returns (m: TagMatch)
    requires WellFormedTag(pat, ws, name, attrs, body) && IsTagText(pat, tag, ws, name, attrs, body)
    requires text == pre + tag + post
    ensures m.start == |pre| && m.end == |pre| + |tag| && InText(text, m)
    ensures MatchesAt(pat, text, |pre|, m)
    ensures text[m.nameStart..m.nameEnd] == name && text[m.bodyStart..m.bodyEnd] == body
  {
    var p := |pre|;
    var m0 := TagMatchAlone(pat, tag, ws, name, attrs, body);
    assert At(text, p, tag) by {
      assert text[p..] == tag + post;
    }
    MatchShift(pat, tag, text, p, m0);
    m := Shift(m0, p);
    ShiftSlices(text, p, tag, m0, name, body);
  }

  /** The name and body slices of a match in `tag` are, moved `p` on, slices of a text holding `tag`
      at `p`. */
  lemma {:induction false} ShiftSlices(text: string, p: nat, tag: string, m: TagMatch, name: string, body: string)
    requires At(text, p, tag) && m.nameStart <= m.nameEnd <= m.bodyStart <= m.bodyEnd <= |tag|
    requires tag[m.nameStart..m.nameEnd] == name && tag[m.bodyStart..m.bodyEnd] == body
    ensures var n := Shift(m, p);
      n.bodyEnd <= |text| && text[n.nameStart..n.nameEnd] == name && text[n.bodyStart..n.bodyEnd] == body
  {
    var n := Shift(m, p);
    assert n.nameStart == m.nameStart + p && n.nameEnd == m.nameEnd + p;
    assert n.bodyStart == m.bodyStart + p && n.bodyEnd == m.bodyEnd + p;
    SliceShift(text, p, tag, m.nameStart, m.nameEnd);
    SliceShift(text, p, tag, m.bodyStart, m.bodyEnd);
  }

  /** A tag text on its own is one match spanning all of it. */
  lemma {:induction false} TagMatchAlone(pat: TagPattern, tag: string, ws: string, name: string, attrs: string, body: string)
    returns (m: TagMatch)
    requires WellFormedTag(pat, ws, name, attrs, body) && IsTagText(pat, tag, ws, name, attrs, body)
    ensures m.start == 0 && m.end == |tag| && MatchesAt(pat, tag, 0, m)
    ensures m.nameStart <= m.nameEnd <= m.bodyStart <= m.bodyEnd <= |tag|
    ensures tag[m.nameStart..m.nameEnd] == name && tag[m.bodyStart..m.bodyEnd] == body
  {
    TagTextAt(pat, tag, ws, name, attrs, body);
    m := ReadTag(pat, tag, ws, name, attrs, body);
    TagSlices(pat, tag, ws, name, attrs, body);
  }

  /** Positions `p` further on. */
  function Shift(m: TagMatch, p: nat): TagMatch {
    TagMatch(m.start + p, m.nameStart + p, m.nameEnd + p, m.bodyStart + p, m.bodyEnd + p, m.end + p)
  }

  /** A match spanning all of `tag` is, moved `p` on, a match in any text holding `tag` at `p`. */
  lemma {:induction false} MatchShift(pat: TagPattern, tag: string, text: string, p: nat, m: TagMatch)
    requires MatchesAt(pat, tag, 0, m) && m.end == |tag| && At(text, p, tag)
    ensures MatchesAt(pat, text, p, Shift(m, p))
  {
    MatchShiftHead(pat, tag, text, p, m);
    MatchShiftTail(pat, tag, text, p, m);
  }

  /** The shifted match up to the quote after the name. */
  lemma {:induction false} MatchShiftHead(pat: TagPattern, tag: string, text: string, p: nat, m: TagMatch)
    requires MatchesAt(pat, tag, 0, m) && m.end == |tag| && At(text, p, tag)
    ensures var n := Shift(m, p);
      && At(text, p, pat.open)
      && p + |pat.open| < n.nameStart - |NameAttr|
      && At(text, n.nameStart - |NameAttr|, NameAttr)
      && (forall k :: p + |pat.open| <= k < n.nameStart - |NameAttr| ==> IsSpace(text[k]))
      && n.nameStart < n.nameEnd < |text|
      && (forall k :: n.nameStart <= k < n.nameEnd ==> text[k] != '"')
      && text[n.nameEnd] == '"'
  {
    var n := Shift(m, p);
    AtChars(text, p, tag);
    AtWithin(text, p, tag, 0, pat.open);
    AtWithin(text, p, tag, m.nameStart - |NameAttr|, NameAttr);
    forall k | p + |pat.open| <= k < n.nameStart - |NameAttr| ensures IsSpace(text[k]) {
      assert text[k] == tag[k - p];
    }
    forall k | n.nameStart <= k < n.nameEnd ensures text[k] != '"' {
      assert text[k] == tag[k - p];
    }
    assert text[n.nameEnd] == tag[m.nameEnd];
  }

  /** The shifted match from the further attributes to its end. */
  lemma {:induction false} MatchShiftTail(pat: TagPattern, tag: string, text: string, p: nat, m: TagMatch)
    requires MatchesAt(pat, tag, 0, m) && m.end == |tag| && At(text, p, tag)
    ensures var n := Shift(m, p);
      && n.nameEnd + 2 <= n.bodyStart <= |text|
      && (forall k :: n.nameEnd < k < n.bodyStart - 1 ==> text[k] != '>')
      && text[n.bodyStart - 1] == '>'
      && (pat.attrs || n.bodyStart == n.nameEnd + 2)
      && n.bodyStart <= n.bodyEnd
      && (forall k :: n.bodyStart <= k < n.bodyEnd ==> !At(text, k, pat.close))
      && At(text, n.bodyEnd, pat.close)
      && n.end == n.bodyEnd + |pat.close|
  {
    var n := Shift(m, p);
    AtChars(text, p, tag);
    AtWithin(text, p, tag, m.bodyEnd, pat.close);
    forall k | n.nameEnd < k < n.bodyStart - 1 ensures text[k] != '>' {
      assert text[k] == tag[k - p];
    }
    forall k | n.bodyStart <= k < n.bodyEnd ensures !At(text, k, pat.close) {
      AtWithin(text, p, tag, k - p, pat.close);
    }
    assert text[n.bodyStart - 1] == tag[m.bodyStart - 1];
  }

  /** A slice of `tag` is the matching slice of a text holding `tag` at `p`. */
  lemma {:induction false} SliceShift(text: string, p: nat, tag: string, i: nat, j: nat)
    requires At(text, p, tag) && i <= j <= |tag|
    ensures j + p <= |text| && text[i + p..j + p] == tag[i..j]
  {
    assert text[i + p..j + p] == text[p..][..|tag|][i..j];
  }

  /** Positions where no opening literal starts add nothing to what `finditer` returns. */
  lemma {:induction false} ScanSkipsNoOpen(pat: TagPattern, text: string, lo: nat, hi: nat)
    requires lo <= hi <= |text|
    requires forall k :: lo <= k < hi ==> !At(text, k, pat.open)
    ensures Scan(pat, text, lo) == Scan(pat, text, hi)
    decreases hi - lo
  {
    if lo < hi {
      assert ParseAt(pat, text, lo).None?;
      ScanSkipsNoOpen(pat, text, lo + 1, hi);
    }
  }

  /** Reads a text holding the pieces of a tag, piece by piece. */
  lemma {:induction false} ReadTag(pat: TagPattern, text: string, ws: string, name: string, attrs: string, body: string) returns (m: TagMatch)
    requires WellFormedTag(pat, ws, name, attrs, body)
    requires |text| == |TagText(pat, ws, name, attrs, body)| && At(text, 0, TagText(pat, ws, name, attrs, body))
    ensures var nameStart := |pat.open| + |ws| + |NameAttr|;
            var bodyStart := nameStart + |name| + 1 + |attrs| + 1;
            m == TagMatch(0, nameStart, nameStart + |name|, bodyStart, bodyStart + |body|, |text|)
            && MatchesAt(pat, text, 0, m)
  {
    var o1 := |pat.open|;
    var o2 := o1 + |ws|;
    var o3 := o2 + |NameAttr|;
    var o4 := o3 + |name|;
    var o5 := o4 + 1;
    var o6 := o5 + |attrs|;
    ReadHead(text, pat.open, ws, name, "\"" + (attrs + (">" + (body + pat.close))));
    ReadTail(text, o4, attrs, body + pat.close);
    BodyScan(text, o6 + 1, body, pat.close);
    m := TagMatch(0, o3, o4, o6 + 1, o6 + 1 + |body|, |text|);
    MatchFromLayout(pat, text, ws, name, attrs, body, o1, o2, o3, o4, o5, o6);
  }

  /** The name and the body of a tag text, as slices. */
  lemma {:induction false} TagSlices(pat: TagPattern, text: string, ws: string, name: string, attrs: string, body: string)
    requires |text| == |TagText(pat, ws, name, attrs, body)| && At(text, 0, TagText(pat, ws, name, attrs, body))
    ensures var nameStart := |pat.open| + |ws| + |NameAttr|;
            var bodyStart := nameStart + |name| + 1 + |attrs| + 1;
            text[nameStart..nameStart + |name|] == name && text[bodyStart..bodyStart + |body|] == body
  {
    var o4 := |pat.open| + |ws| + |NameAttr| + |name|;
    ReadHead(text, pat.open, ws, name, "\"" + (attrs + (">" + (body + pat.close))));
    ReadTail(text, o4, attrs, body + pat.close);
    AtSplit(text, o4 + 1 + |attrs| + 1, body, pat.close);
    AtSlice(text, o4 - |name|, name);
    AtSlice(text, o4 + 1 + |attrs| + 1, body);
  }

  /** An occurrence of `lit` is the slice it covers. */
  lemma {:induction false} AtSlice(text: string, o: nat, lit: string)
    requires At(text, o, lit)
    ensures o + |lit| <= |text| && text[o..o + |lit|] == lit
  {
    assert text[o..o + |lit|] == text[o..][..|lit|];
  }

  /** The pieces up to the name. */
  lemma {:induction false} ReadHead(text: string, open: string, ws: string, name: string, rest: string)
    requires At(text, 0, open + (ws + (NameAttr + (name + rest))))
    ensures At(text, 0, open) && At(text, |open|, ws) && At(text, |open| + |ws|, NameAttr)
    ensures At(text, |open| + |ws| + |NameAttr|, name) && At(text, |open| + |ws| + |NameAttr| + |name|, rest)
  {
    AtSplit(text, 0, open, ws + (NameAttr + (name + rest)));
    AtSplit(text, |open|, ws, NameAttr + (name + rest));
    AtSplit(text, |open| + |ws|, NameAttr, name + rest);
    AtSplit(text, |open| + |ws| + |NameAttr|, name, rest);
  }

  /** The pieces after the name. */
  lemma {:induction false} ReadTail(text: string, o: nat, attrs: string, rest: string)
    requires At(text, o, "\"" + (attrs + (">" + rest)))
    ensures At(text, o, "\"") && At(text, o + 1, attrs) && At(text, o + 1 + |attrs|, ">")
    ensures At(text, o + 1 + |attrs| + 1, rest)
  {
    AtSplit(text, o, "\"", attrs + (">" + rest));
    AtSplit(text, o + 1, attrs, ">" + rest);
    AtSplit(text, o + 1 + |attrs|, ">", rest);
  }

  /** The layout of a tag text, read piece by piece, is a match. */
  lemma {:induction false} MatchFromLayout(pat: TagPattern, text: string, ws: string, name: string, attrs: string, body: string,
                        o1: nat, o2: nat, o3: nat, o4: nat, o5: nat, o6: nat)
    requires ws != [] && forall k :: 0 <= k < |ws| ==> IsSpace(ws[k])
    requires name != [] && '"' !in name
    requires '>' !in attrs && (pat.attrs || attrs == [])
    requires o1 == |pat.open| && o2 == o1 + |ws| && o3 == o2 + |NameAttr| && o4 == o3 + |name|
    requires o5 == o4 + 1 && o6 == o5 + |attrs| && o6 + 1 + |body| + |pat.close| == |text|
    requires At(text, 0, pat.open)
    requires At(text, o1, ws)
    requires At(text, o2, NameAttr)
    requires At(text, o3, name) && At(text, o4, "\"") && At(text, o5, attrs) && At(text, o6, ">")
    requires forall k :: o6 + 1 <= k < o6 + 1 + |body| ==> !At(text, k, pat.close)
    requires At(text, o6 + 1 + |body|, pat.close)
    ensures MatchesAt(pat, text, 0, TagMatch(0, o3, o4, o6 + 1, o6 + 1 + |body|, |text|))
  {
    AtChars(text, o1, ws);
    AtChars(text, o3, name);
    AtChars(text, o4, "\"");
    AtChars(text, o5, attrs);
    AtChars(text, o6, ">");
    forall k | o1 <= k < o2 ensures IsSpace(text[k]) {
      assert text[k] == ws[k - o1];
    }
    forall k | o3 <= k < o4 ensures NotQuote(text[k]) {
      assert text[k] == name[k - o3];
    }
    forall k | o5 <= k < o6 ensures NotGt(text[k]) {
      assert text[k] == attrs[k - o5];
    }
    assert text[o4] == '"';
    assert text[o6] == '>';
    MatchesAtIntro(pat, text, 0, TagMatch(0, o3, o4, o6 + 1, o6 + 1 + |body|, |text|));
  }

  // ---------------------------------------------------------------------------------------------
  // A text made of one tag and nothing else.

  /** When the argument pattern finds exactly one match, the dictionary holds its key and its
      stripped value and nothing else. */
  lemma {:induction false} ArgsOfOneMatch(body: string, m: TagMatch)
    requires InText(body, m) && Scan(ArgPattern, body, 0) == [m]
    ensures ArgsOf(body) == map[KeyOf(body, m) := ValueOf(body, m)]
  {
    var ms := FindAll(ArgPattern, body);
    assert ms[0] == m;
    assert Collect(body, ms) == Collect(body, [])[KeyOf(body, m) := ValueOf(body, m)];
  }

  /** When the tool pattern finds exactly one match, the text holds exactly one call, the one that
      match gives. */
  lemma {:induction false} CallsOfOneMatch(text: string, m: TagMatch)
    requires InText(text, m) && Scan(ToolPattern, text, 0) == [m]
    ensures ExtractToolCalls(text) == [CallOf(text, m)]
  {
    var ms := FindAll(ToolPattern, text);
    assert ms[0] == m;
  }

  /** A body holding one argument tag, with text before and after it in which no `<arg` starts,
      yields the dictionary with that one key and its value, stripped. */
  lemma {:induction false} SingleArg(body: string, pre: string, post: string, ws: string, key: string, value: string)
    requires WellFormedTag(ArgPattern, ws, key, "", value)
    requires body == pre + TagText(ArgPattern, ws, key, "", value) + post
    requires forall k :: 0 <= k < |pre| ==> !At(body, k, ArgPattern.open)
    requires forall k :: |body| - |post| <= k < |body| ==> !At(body, k, ArgPattern.open)
    ensures ArgsOf(body) == map[key := Strip(value)]
  {
    var m := SingleTag(ArgPattern, body, pre, post, ws, key, "", value);
    ArgsOfOneMatch(body, m);
  }

  /** A text holding one tool tag, with any further attributes and with text before and after it in
      which no `<tool` starts, yields one call: the tag's name, with the arguments of its body. */
  lemma {:induction false} SingleCall(text: string, pre: string, post: string, ws: string, name: string, attrs: string, body: string)
    requires WellFormedTag(ToolPattern, ws, name, attrs, body)
    requires text == pre + TagText(ToolPattern, ws, name, attrs, body) + post
    requires forall k :: 0 <= k < |pre| ==> !At(text, k, ToolPattern.open)
    requires forall k :: |text| - |post| <= k < |text| ==> !At(text, k, ToolPattern.open)
    ensures ExtractToolCalls(text) == [ToolCall(name, ArgsOf(body))]
  {
    var m := SingleTag(ToolPattern, text, pre, post, ws, name, attrs, body);
    CallsOfOneMatch(text, m);
  }

  // ---------------------------------------------------------------------------------------------
  // The example from the module's documentation:
  //   <tool name="search"><arg name="query">latest AI news</arg></tool>

  const ExampleValue := "latest AI news"
  /** `<arg name="query">latest AI news</arg>` */
  const ExampleArgTag := TagText(ArgPattern, " ", "query", "", ExampleValue)
  /** `<tool name="search"><arg name="query">latest AI news</arg></tool>` */
  const Example := TagText(ToolPattern, " ", "search", "", ExampleArgTag)

  lemma {:induction false} ExampleValueEnds()
    ensures EndsAtClose(ExampleValue, ArgPattern.close)
  {
    forall k | 0 <= k < |ExampleValue| ensures !At(ExampleValue + ArgPattern.close, k, ArgPattern.close) {
      assert (ExampleValue + ArgPattern.close)[k] != '<' by { assert ExampleValue[k] in ExampleValue; }
      assert (ExampleValue + ArgPattern.close)[k..][0] == (ExampleValue + ArgPattern.close)[k];
    }
  }

  lemma {:induction false} ExampleArgTagEnds()
    ensures EndsAtClose(ExampleArgTag, ToolPattern.close)
  {
    forall k | 0 <= k < |ExampleArgTag| ensures !At(ExampleArgTag + ToolPattern.close, k, ToolPattern.close) {
      var t := ExampleArgTag + ToolPattern.close;
      if k == 0 {
        assert t[1] == 'a';
      } else if k < 32 {
        assert t[k] != '<';
      } else {
        assert t[k] != '<' || t[k + 2] == 'a';
      }
      if At(t, k, ToolPattern.close) {
        AtChars(t, k, ToolPattern.close);
        assert false;
      }
    }
  }

  lemma {:induction false} ExampleValueStripped()
    ensures Strip(ExampleValue) == ExampleValue
  {
    var last := |ExampleValue| - 1;
    assert ExampleValue[0] == 'l' && ExampleValue[last] == 's';
    assert !IsSpace(ExampleValue[0]) && !IsSpace(ExampleValue[last]);
  }

  lemma {:induction false} ExampleArgTagWellFormed()
    ensures WellFormedTag(ArgPattern, " ", "query", "", ExampleValue)
  {
    ExampleValueEnds();
  }

  lemma {:induction false} ExampleArgs()
    ensures ArgsOf(ExampleArgTag) == map["query" := ExampleValue]
  {
    ExampleArgTagWellFormed();
    assert ExampleArgTag == [] + ExampleArgTag + [];
    SingleArg(ExampleArgTag, [], [], " ", "query", ExampleValue);
    ExampleValueStripped();
  }

  lemma {:induction false} ExampleToolTagWellFormed()
    ensures WellFormedTag(ToolPattern, " ", "search", "", ExampleArgTag)
  {
    ExampleArgTagEnds();
  }

  /** The documented example yields one call, `search`, with the single argument `query`. */
  lemma {:induction false} ExampleCall()
    ensures ExtractToolCalls(Example) == [ToolCall("search", map["query" := "latest AI news"])]
  {
    ExampleToolTagWellFormed();
    ExampleArgs();
    assert Example == [] + Example + [];
    SingleCall(Example, [], [], " ", "search", "", ExampleArgTag);
  }
}
