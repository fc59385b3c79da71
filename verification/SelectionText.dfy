/**
 Episode selections as text: the printer of web/src/lib/selection.ts and the two parsers
 (src/copycast/domain/selection.py, web/src/lib/selection.ts), over ASCII digits.
 */
module SelectionText {
  import opened Basics
  import opened Decimal

  datatype Span = Span(lo: nat, hi: nat)

  // ------------------------------------------------------------------ characters

  // `\s` in JavaScript.
  predicate JsSpace(c: char) {
    || '\t' <= c <= '\r' || c == ' ' || c == '\U{a0}' || c == '\U{1680}' || '\U{2000}' <= c <= '\U{200a}'
    || '\U{2028}' <= c <= '\U{2029}' || c == '\U{202f}' || c == '\U{205f}' || c == '\U{3000}' || c == '\U{feff}'
  }

  // The length of the range operator `s` starts with: "-", an en dash or "..".
  function OpLen(s: string): (n: nat)
    ensures n <= |s|
  {
    if s == "" then 0
    else if s[0] == '-' || s[0] == '\U{2013}' then 1
    else if |s| >= 2 && s[0] == '.' && s[1] == '.' then 2
    else 0
  }

  function Leading(s: string, p: char -> bool): (n: nat)
    ensures n <= |s| && (forall i :: 0 <= i < n ==> p(s[i])) && (n < |s| ==> !p(s[n]))
  {
    if s == "" || !p(s[0]) then 0 else 1 + Leading(s[1..], p)
  }

  function Skip(s: string, p: char -> bool): string {
    s[Leading(s, p)..]
  }

  // Replace every `\s*(-|–|\.\.)\s*` by its operator.
  function TightenOps(s: string, space: char -> bool): string
    decreases |s|
  {
    if s == "" then ""
    else
      var rest := Skip(s, space);
      var k := OpLen(rest);
      if k > 0 then rest[..k] + TightenOps(Skip(rest[k..], space), space)
      else [s[0]] + TightenOps(s[1..], space)
  }

  // The maximal runs of characters that are not separators.
  function Words(s: string, sep: char -> bool): seq<string>
    decreases |s|
  {
    var rest := Skip(s, sep);
    if rest == "" then []
    else
      var n := Leading(rest, c => !sep(c));
      [rest[..n]] + Words(rest[n..], sep)
  }

  // The spans of a range token `A op B`, spaces around the operator not allowed.
  function MatchRange(token: string): Option<Span> {
    var n := Leading(token, IsDigit);
    var k := OpLen(token[n..]);
    var right := token[n + k..];
    if n > 0 && k > 0 && right != "" && AllDigits(right) then Some(Span(Value(token[..n]), Value(right))) else None
  }

  // ------------------------------------------------------------------ the Python parser

  const MAX_SELECTION_SIZE := 100_000

  datatype Reason = NotANumberOrRange | StartExceedsEnd | BelowOne | TooMany | SelectionIsEmpty

  datatype Error = Error(token: string, reason: Reason)

  datatype Parsed = Parsed(numbers: seq<nat>, errors: seq<Error>)

  predicate PySeparator(c: char) {
    c == ',' || c == ';' || PySpace(c)
  }

  function PyStrip(s: string): string {
    var t := Skip(s, PySpace);
    t[..|t| - Trailing(t)]
  }

  function Trailing(s: string): (n: nat)
    ensures n <= |s|
  {
    if s == "" || !PySpace(s[|s| - 1]) then 0 else 1 + Trailing(s[..|s| - 1])
  }

  function PyTokens(text: string): seq<string> {
    Words(TightenOps(PyStrip(text), PySpace), PySeparator)
  }

  // What one token says before the size limit is looked at.
  function PySpan(token: string): (r: (Option<Span>, Reason))
    ensures r.0.Some? ==> 1 <= r.0.value.lo <= r.0.value.hi
  {
    var span := if token != "" && AllDigits(token) then Some(Span(Value(token), Value(token))) else MatchRange(token);
    if span.None? then (None, NotANumberOrRange)
    else if span.value.lo > span.value.hi then (None, StartExceedsEnd)
    else if span.value.lo < 1 then (None, BelowOne)
    else (span, SelectionIsEmpty)
  }

  // Append lo, lo + 1, ..., hi, each unless it is there already.
  function Extended(numbers: seq<nat>, lo: nat, hi: nat): seq<nat>
    decreases hi + 1 - lo
  {
    if lo > hi then numbers
    else Extended(if lo in numbers then numbers else numbers + [lo], lo + 1, hi)
  }

  function PyTake(p: Parsed, token: string): Parsed {
    var (span, reason) := PySpan(token);
    if span.None? then p.(errors := p.errors + [Error(token, reason)])
    else
      var size := span.value.hi - span.value.lo + 1;
      if size > MAX_SELECTION_SIZE || |p.numbers| + size > MAX_SELECTION_SIZE
      then p.(errors := p.errors + [Error(token, TooMany)])
      else p.(numbers := Extended(p.numbers, span.value.lo, span.value.hi))
  }

  function PyTakeAll(p: Parsed, tokens: seq<string>): Parsed
    decreases |tokens|
  {
    if tokens == [] then p else PyTakeAll(PyTake(p, tokens[0]), tokens[1..])
  }

  function PyParse(text: string): Parsed {
    var p := PyTakeAll(Parsed([], []), PyTokens(text));
    if p.numbers == [] && p.errors == [] && PyStrip(text) != ""
    then p.(errors := [Error("", SelectionIsEmpty)]) else p
  }

  // The inner loop: the numbers of one span not seen yet.
  method Extend(numbers: seq<nat>, seen: set<nat>, lo: nat, hi: nat) returns (numbers': seq<nat>, seen': set<nat>)
    requires forall n :: n in seen <==> n in numbers
    ensures numbers' == Extended(numbers, lo, hi)
    ensures forall n :: n in seen' <==> n in numbers'
  {
    numbers', seen' := numbers, seen;
    var n := lo;
    while n <= hi
      invariant lo <= n
      invariant forall m :: m in seen' <==> m in numbers'
      invariant Extended(numbers', n, hi) == Extended(numbers, lo, hi)
      decreases hi + 1 - n
    {
      if n !in seen' {
        seen', numbers' := seen' + {n}, numbers' + [n];
      }
      n := n + 1;
    }
  }

  // `parse_selection` as its loops run.
  method ParseSelection(text: string) returns (parsed: Parsed)
    ensures parsed == PyParse(text)
  {
    var numbers: seq<nat> := [];
    var errors: seq<Error> := [];
    var seen: set<nat> := {};
    var tokens := PyTokens(text);
    while tokens != []
      invariant forall n :: n in seen <==> n in numbers
      invariant PyTakeAll(Parsed(numbers, errors), tokens) == PyTakeAll(Parsed([], []), PyTokens(text))
      decreases |tokens|
    {
      ghost var before := Parsed(numbers, errors);
      var token := tokens[0];
      var (span, reason) := PySpan(token);
      if span.None? {
        errors := errors + [Error(token, reason)];
      } else {
        var size := span.value.hi - span.value.lo + 1;
        if size > MAX_SELECTION_SIZE || |numbers| + size > MAX_SELECTION_SIZE {
          errors := errors + [Error(token, TooMany)];
        } else {
          numbers, seen := Extend(numbers, seen, span.value.lo, span.value.hi);
        }
      }
      assert Parsed(numbers, errors) == PyTake(before, token);
      tokens := tokens[1..];
    }
    if numbers == [] && errors == [] && PyStrip(text) != "" {
      errors := [Error("", SelectionIsEmpty)];
    }
    parsed := Parsed(numbers, errors);
  }

  // ------------------------------------------------------------------ the TypeScript parser

  const SELECTION_MAX_SPAN := 100_000

  predicate JsSeparator(c: char) {
    c == ',' || c == ';' || c == '\n'
  }

  // `split(/[,;\n]+|\s{2,}/)`; `chunk` is what was read since the last separator.
  function Chunks(s: string, chunk: string): seq<string>
    decreases |s|
  {
    if s == "" then [chunk]
    else if JsSeparator(s[0]) then [chunk] + Chunks(Skip(s, JsSeparator), "")
    else if Leading(s, JsSpace) >= 2 then [chunk] + Chunks(Skip(s, JsSpace), "")
    else Chunks(s[1..], chunk + [s[0]])
  }

  // `splitLooseTokens` of one chunk, its tokens trimmed and the empty ones dropped.
  function LooseTokens(chunk: string): seq<string> {
    Words(TightenOps(chunk, JsSpace), JsSpace)
  }

  function Loose(chunks: seq<string>): seq<string> {
    if chunks == [] then [] else LooseTokens(chunks[0]) + Loose(chunks[1..])
  }

  function TsTokens(text: string): seq<string> {
    Loose(Chunks(text, ""))
  }

  // The span of one token; None when it is invalid.
  function TsSpan(token: string): (r: Option<Span>)
    ensures r.Some? ==> 1 <= r.value.lo <= r.value.hi
  {
    if token != "" && AllDigits(token) then
      if Value(token) < 1 then None else Some(Span(Value(token), Value(token)))
    else
      // Tokens hold no space, so the pattern's own spaces never matter.
      match MatchRange(token)
      case None => None
      case Some(s) => if s.lo < 1 || s.hi < s.lo || s.hi - s.lo > SELECTION_MAX_SPAN then None else Some(s)
  }

  datatype TsParsed = TsParsed(ranges: seq<Span>, invalid: seq<string>, numbers: set<nat>, empty: bool)

  function TsRanges(tokens: seq<string>): seq<Span> {
    if tokens == [] then []
    else (if TsSpan(tokens[0]).Some? then [TsSpan(tokens[0]).value] else []) + TsRanges(tokens[1..])
  }

  function TsInvalid(tokens: seq<string>): seq<string> {
    if tokens == [] then []
    else (if TsSpan(tokens[0]).None? then [tokens[0]] else []) + TsInvalid(tokens[1..])
  }

  function Interval(lo: nat, hi: nat): (s: set<nat>)
    ensures forall n :: n in s <==> lo <= n <= hi
    decreases hi + 1 - lo
  {
    if lo > hi then {} else {lo} + Interval(lo + 1, hi)
  }

  // The numbers some span covers.
  function Covered(spans: seq<Span>): set<nat> {
    if spans == [] then {} else Interval(spans[0].lo, spans[0].hi) + Covered(spans[1..])
  }

  function TsParse(text: string): TsParsed {
    var tokens := TsTokens(text);
    TsParsed(TsRanges(tokens), TsInvalid(tokens), Covered(TsRanges(tokens)), tokens == [])
  }

  method SortTokens(tokens: seq<string>) returns (ranges: seq<Span>, invalid: seq<string>)
    ensures ranges == TsRanges(tokens) && invalid == TsInvalid(tokens)
  {
    ranges, invalid := [], [];
    var rest := tokens;
    while rest != []
      invariant ranges + TsRanges(rest) == TsRanges(tokens)
      invariant invalid + TsInvalid(rest) == TsInvalid(tokens)
      decreases |rest|
    {
      var span := TsSpan(rest[0]);
      if span.Some? {
        assert ranges + TsRanges(rest) == (ranges + [span.value]) + TsRanges(rest[1..]);
        ranges := ranges + [span.value];
      } else {
        assert invalid + TsInvalid(rest) == (invalid + [rest[0]]) + TsInvalid(rest[1..]);
        invalid := invalid + [rest[0]];
      }
      rest := rest[1..];
    }
  }

  method Collect(ranges: seq<Span>) returns (seen: set<nat>)
    ensures seen == Covered(ranges)
  {
    seen := {};
    var rest := ranges;
    while rest != []
      invariant seen + Covered(rest) == Covered(ranges)
      decreases |rest|
    {
      var n := rest[0].lo;
      ghost var before := seen;
      while n <= rest[0].hi
        invariant n >= rest[0].lo
        invariant seen + Interval(n, rest[0].hi) == before + Interval(rest[0].lo, rest[0].hi)
        decreases rest[0].hi + 1 - n
      {
        seen := seen + {n};
        n := n + 1;
      }
      assert seen == before + Interval(rest[0].lo, rest[0].hi);
      rest := rest[1..];
    }
  }

  predicate Ascending(s: seq<nat>) {
    forall i, j :: 0 <= i < j < |s| ==> s[i] < s[j]
  }

  predicate IsSmallest(m: nat, s: set<nat>) {
    m in s && forall n :: n in s ==> m <= n
  }

  lemma SmallestExists(s: set<nat>)
    requires s != {}
    ensures exists m :: IsSmallest(m, s)
  {
    var x :| x in s;
    if s == {x} {
      assert IsSmallest(x, s);
    } else {
      SmallestExists(s - {x});
      var y :| IsSmallest(y, s - {x});
      assert forall n :: n in s ==> n == x || n in s - {x};
      assert IsSmallest(if x <= y then x else y, s);
    }
  }

  // `[...seen].sort((a, b) => a - b)`
  method SortSet(s: set<nat>) returns (sorted: seq<nat>)
    ensures Ascending(sorted) && forall n :: n in sorted <==> n in s
  {
    sorted := [];
    var rest := s;
    while rest != {}
      invariant Ascending(sorted) && rest <= s
      invariant forall n :: n in s <==> n in sorted || n in rest
      invariant forall m, n :: m in sorted && n in rest ==> m < n
      decreases |rest|
    {
      SmallestExists(rest);
      var m :| IsSmallest(m, rest);
      assert forall i :: 0 <= i < |sorted| ==> sorted[i] in sorted;
      sorted, rest := sorted + [m], rest - {m};
    }
  }

  // `parseSelection` as its loops run: what it finds, and its numbers in order.
  method ParseSelectionTs(text: string) returns (parsed: TsParsed, numbers: seq<nat>)
    ensures parsed == TsParse(text)
    ensures Ascending(numbers) && forall n :: n in numbers <==> n in parsed.numbers
  {
    var tokens := TsTokens(text);
    var ranges, invalid := SortTokens(tokens);
    var seen := Collect(ranges);
    numbers := SortSet(seen);
    parsed := TsParsed(ranges, invalid, seen, tokens == []);
  }
}
