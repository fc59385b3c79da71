/** The printer's canonical ranges, and what both parsers make of its output. */
module SelectionRoundTrip {
  import opened Basics
  import opened Decimal
  import opened SelectionText

  // ------------------------------------------------------------------ the printer

  function PrintSpan(s: Span): string {
    if s.lo == s.hi then Dec(s.lo) else Dec(s.lo) + "-" + Dec(s.hi)
  }

  // The spans joined by ", ".
  function Print(spans: seq<Span>): string {
    if spans == [] then ""
    else if |spans| == 1 then PrintSpan(spans[0])
    else PrintSpan(spans[0]) + ", " + Print(spans[1..])
  }

  // A number by itself, a run as its ends around a hyphen; a comma and a blank between two.
  lemma {:induction false} PrintIsJoined(spans: seq<Span>)
    ensures Print(spans) ==
            Join(seq(|spans|, i requires 0 <= i < |spans| =>
                       Dec(spans[i].lo) + if spans[i].hi == spans[i].lo then "" else "-" + Dec(spans[i].hi)), ", ")
  {
    var parts := seq(|spans|, i requires 0 <= i < |spans| =>
      Dec(spans[i].lo) + if spans[i].hi == spans[i].lo then "" else "-" + Dec(spans[i].hi));
    if spans != [] {
      PrintIsJoined(spans[1..]);
      assert parts[1..] == seq(|spans[1..]|, i requires 0 <= i < |spans[1..]| =>
        Dec(spans[1..][i].lo) + if spans[1..][i].hi == spans[1..][i].lo then "" else "-" + Dec(spans[1..][i].hi));
      assert PrintSpan(spans[0]) == parts[0];
    }
  }

  // Ascending spans of positive numbers with a gap between any two: maximal runs.
  predicate Canonical(spans: seq<Span>) {
    && (forall i :: 0 <= i < |spans| ==> 1 <= spans[i].lo <= spans[i].hi)
    && (forall i :: 0 < i < |spans| ==> spans[i - 1].hi + 1 < spans[i].lo)
  }

  function Expand(spans: seq<Span>): seq<nat> {
    if spans == [] then [] else Extended([], spans[0].lo, spans[0].hi) + Expand(spans[1..])
  }

  ghost predicate PartsOf(parts: seq<string>, spans: seq<Span>) {
    |parts| == |spans| && forall i :: 0 <= i < |parts| ==> parts[i] == PrintSpan(spans[i])
  }

  lemma PartsMore(parts: seq<string>, spans: seq<Span>, s: Span)
    requires PartsOf(parts, spans)
    ensures PartsOf(parts + [PrintSpan(s)], spans + [s])
  {
  }

  method JoinParts(parts: seq<string>, ghost spans: seq<Span>) returns (text: string)
    requires PartsOf(parts, spans)
    ensures text == Print(spans)
  {
    if parts == [] {
      return "";
    }
    var i := |parts| - 1;
    text := parts[i];
    while i > 0
      invariant 0 <= i < |parts|
      invariant text == Print(spans[i..])
    {
      i := i - 1;
      text := parts[i] + ", " + text;
      assert spans[i..][1..] == spans[i + 1..];
    }
    assert spans[0..] == spans;
  }

  // The inner loop: the last index of the run of consecutive numbers that starts at `first`.
  method RunFrom(sorted: seq<nat>, first: nat) returns (i: nat)
    requires Ascending(sorted) && first < |sorted|
    ensures first <= i < |sorted|
    ensures forall k :: first <= k <= i ==> sorted[k] == sorted[first] + (k - first)
    ensures i + 1 < |sorted| ==> sorted[i + 1] > sorted[i] + 1
  {
    i := first;
    var end := sorted[first];
    while i + 1 < |sorted| && sorted[i + 1] == end + 1
      invariant first <= i < |sorted| && end == sorted[i]
      invariant forall k :: first <= k <= i ==> sorted[k] == sorted[first] + (k - first)
    {
      i := i + 1;
      end := sorted[i];
    }
  }

  lemma RunIsInterval(sorted: seq<nat>, first: nat, last: nat)
    requires first <= last < |sorted|
    requires forall k :: first <= k <= last ==> sorted[k] == sorted[first] + (k - first)
    ensures forall n :: n in Interval(sorted[first], sorted[last]) <==> n in sorted[first..last + 1]
  {
    var run := sorted[first..last + 1];
    forall n | n in Interval(sorted[first], sorted[last]) ensures n in run {
      assert run[n - sorted[first]] == n;
    }
  }

  // The spans printed for the first i numbers: canonical, and a gap before the next number.
  ghost predicate Upto(spans: seq<Span>, sorted: seq<nat>, i: nat)
    requires i <= |sorted|
  {
    && Canonical(spans)
    && (forall n :: n in Covered(spans) <==> n in sorted[..i])
    && (spans != [] && i < |sorted| ==> spans[|spans| - 1].hi + 1 < sorted[i])
  }

  lemma UptoMore(spans: seq<Span>, sorted: seq<nat>, i: nat, last: nat)
    requires i <= last < |sorted| && Upto(spans, sorted, i) && 0 < sorted[i] <= sorted[last]
    requires forall k :: i <= k <= last ==> sorted[k] == sorted[i] + (k - i)
    requires last + 1 < |sorted| ==> sorted[last + 1] > sorted[last] + 1
    ensures Upto(spans + [Span(sorted[i], sorted[last])], sorted, last + 1)
  {
    var s := Span(sorted[i], sorted[last]);
    RunIsInterval(sorted, i, last);
    CoveredMore(spans, s);
    var now := sorted[..last + 1];
    assert now == sorted[..i] + sorted[i..last + 1];
    forall n ensures n in now <==> n in Covered(spans + [s]) {
      assert n in now <==> n in sorted[..i] || n in sorted[i..last + 1];
    }
  }

  method PrintRun(start: nat, end: nat) returns (part: string)
    ensures part == PrintSpan(Span(start, end))
  {
    part := if start == end then Dec(start) else Dec(start) + "-" + Dec(end);
  }

  // `text` is the canonical spans of the positive ones among `numbers`.
  ghost predicate PrintsAs(text: string, numbers: seq<int>, spans: seq<Span>) {
    && text == Print(spans) && Canonical(spans)
    && forall n :: n in Covered(spans) <==> n in numbers && n > 0
  }

  ghost predicate Prints(text: string, numbers: seq<int>) {
    exists spans: seq<Span> :: PrintsAs(text, numbers, spans)
  }

  // `formatSelection`: it prints the canonical spans of the positive numbers given.
  method FormatSelection(numbers: seq<int>) returns (text: string)
    ensures Prints(text, numbers)
  {
    ghost var spans: seq<Span> := [];
    var sorted := SortSet(set n: nat | n in numbers && n > 0);
    var parts: seq<string> := [];
    var i := 0;
    while i < |sorted|
      invariant 0 <= i <= |sorted|
      invariant PartsOf(parts, spans)
      invariant Upto(spans, sorted, i)
      decreases |sorted| - i
    {
      var last := RunFrom(sorted, i);
      var start, end := sorted[i], sorted[last];
      var part := PrintRun(start, end);
      PartsMore(parts, spans, Span(start, end));
      parts := parts + [part];
      assert sorted[i] in sorted;
      UptoMore(spans, sorted, i, last);
      spans := spans + [Span(start, end)];
      i := last + 1;
    }
    assert sorted[..|sorted|] == sorted;
    text := JoinParts(parts, spans);
    assert PrintsAs(text, numbers, spans);
  }

  lemma {:induction false} CoveredMore(spans: seq<Span>, s: Span)
    ensures Covered(spans + [s]) == Covered(spans) + Interval(s.lo, s.hi)
  {
    if spans == [] {
      assert (spans + [s])[1..] == [];
    } else {
      assert (spans + [s])[1..] == spans[1..] + [s];
      CoveredMore(spans[1..], s);
    }
  }

  // ------------------------------------------------------------------ reading the print

  // Every "-" stands between digits, and there is no other operator.
  predicate Tight(s: string) {
    && (forall i :: 0 <= i < |s| ==> s[i] != '.' && s[i] != '\U{2013}')
    && (forall i :: 0 <= i < |s| && s[i] == '-' ==> i + 1 < |s| && IsDigit(s[i + 1]))
    && (forall i :: 0 < i < |s| && s[i] == '-' ==> IsDigit(s[i - 1]))
  }

  // A predicate that accepts spaces but no digit.
  ghost predicate SpaceLike(p: char -> bool) {
    p(' ') && !p('-') && forall c :: IsDigit(c) ==> !p(c)
  }

  lemma NoSpaceBefore(s: string, n: nat, space: char -> bool)
    requires Tight(s) && SpaceLike(space) && 0 < n < |s| && s[n] == '-'
    ensures !space(s[n - 1])
  {
  }

  lemma TightTail(s: string)
    requires Tight(s) && s != ""
    ensures Tight(s[1..])
  {
    var t := s[1..];
    forall i | 0 <= i < |t| && t[i] == '-' ensures i + 1 < |t| && IsDigit(t[i + 1]) && (i > 0 ==> IsDigit(t[i - 1])) {
      assert s[i + 1] == '-';
    }
  }

  lemma TightNoOp(s: string, space: char -> bool)
    requires Tight(s) && SpaceLike(space) && s != "" && s[0] != '-'
    ensures OpLen(Skip(s, space)) == 0
  {
    var n := Leading(s, space);
    if n < |s| && s[n] == '-' && n > 0 {
      NoSpaceBefore(s, n, space);
      assert false;
    }
  }

  lemma TightOp(s: string, space: char -> bool)
    requires Tight(s) && SpaceLike(space) && s != "" && s[0] == '-'
    ensures TightenOps(s, space) == ['-'] + TightenOps(s[1..], space)
  {
    assert Leading(s, space) == 0 && Skip(s, space) == s;
    assert s[..1] == ['-'];
    assert Leading(s[1..], space) == 0 && Skip(s[1..], space) == s[1..];
  }

  lemma TightStep(s: string, space: char -> bool)
    requires Tight(s) && SpaceLike(space) && s != ""
    ensures TightenOps(s, space) == [s[0]] + TightenOps(s[1..], space)
  {
    if s[0] == '-' {
      TightOp(s, space);
    } else {
      TightNoOp(s, space);
    }
  }

  lemma {:induction false} TightStays(s: string, space: char -> bool)
    requires Tight(s) && SpaceLike(space)
    ensures TightenOps(s, space) == s
    decreases |s|
  {
    if s != "" {
      TightStep(s, space);
      TightTail(s);
      TightStays(s[1..], space);
      assert s == [s[0]] + s[1..];
    }
  }

  // A printed span: digits, with one "-" between two numerals at most.
  lemma PrintSpanShape(s: Span)
    ensures var t := PrintSpan(s);
            && t != "" && IsDigit(t[0]) && Tight(t)
            && (forall i :: 0 <= i < |t| ==> IsDigit(t[i]) || t[i] == '-')
            && t[|t| - 1] != '-'
  {
  }

  lemma TightJoin(a: string, b: string)
    requires Tight(a) && Tight(b) && a != "" && b != "" && a[|a| - 1] != '-' && b[0] != '-'
    ensures Tight(a + b)
  {
  }

  lemma TightThen(a: string, b: string)
    requires Tight(a) && Tight(b) && a != "" && b != "" && a[|a| - 1] != '-' && b[0] != '-'
    ensures Tight(a + ", " + b) && (a + ", " + b)[0] == a[0]
    ensures (a + ", " + b)[|a + ", " + b| - 1] == b[|b| - 1]
  {
    TightJoin(", ", b);
    TightJoin(a, ", " + b);
    assert a + ", " + b == a + (", " + b);
  }

  lemma {:induction false} PrintTight(spans: seq<Span>)
    ensures Tight(Print(spans))
    ensures spans != [] ==>
              && Print(spans) != "" && IsDigit(Print(spans)[0])
              && Print(spans)[|Print(spans)| - 1] != '-' && !PySpace(Print(spans)[|Print(spans)| - 1])
  {
    if spans != [] {
      PrintSpanShape(spans[0]);
      if |spans| > 1 {
        PrintTight(spans[1..]);
        TightThen(PrintSpan(spans[0]), Print(spans[1..]));
      }
    }
  }

  function Parts(spans: seq<Span>): seq<string> {
    if spans == [] then [] else [PrintSpan(spans[0])] + Parts(spans[1..])
  }

  lemma {:induction false} LeadingAll(a: string, b: string, p: char -> bool)
    requires forall i :: 0 <= i < |a| ==> p(a[i])
    requires b == "" || !p(b[0])
    ensures Leading(a + b, p) == |a| && (a + b)[|a|..] == b && (a + b)[..|a|] == a
  {
    if a == "" {
      assert a + b == b;
    } else {
      assert (a + b)[1..] == a[1..] + b;
      LeadingAll(a[1..], b, p);
    }
  }

  // A word, its separators, and the rest.
  lemma WordsStep(word: string, gap: string, rest: string, sep: char -> bool)
    requires word != "" && (forall i :: 0 <= i < |word| ==> !sep(word[i]))
    requires forall i :: 0 <= i < |gap| ==> sep(gap[i])
    requires gap == "" ==> rest == ""
    requires rest == "" || !sep(rest[0])
    ensures Words(word + gap + rest, sep) == [word] + Words(rest, sep)
  {
    var s := word + gap + rest;
    assert s == word + (gap + rest);
    LeadingAll("", s, sep);
    LeadingAll(word, gap + rest, c => !sep(c));
    LeadingAll(gap, rest, sep);
    LeadingAll("", rest, sep);
    assert Skip(s, sep) == s;
    assert Skip(gap + rest, sep) == rest == Skip(rest, sep);
  }

  lemma WordAlone(word: string, sep: char -> bool)
    requires word != "" && forall i :: 0 <= i < |word| ==> !sep(word[i])
    ensures Words(word, sep) == [word]
  {
    WordsStep(word, "", "", sep);
    assert word + "" + "" == word;
    assert Words("", sep) == [];
  }

  lemma NoSeparators(s: Span)
    ensures var t := PrintSpan(s); t != "" && forall i :: 0 <= i < |t| ==> !PySeparator(t[i])
  {
    PrintSpanShape(s);
  }

  lemma WordBeforeComma(word: string, rest: string)
    requires word != "" && (forall i :: 0 <= i < |word| ==> !PySeparator(word[i]))
    requires rest != "" && IsDigit(rest[0])
    ensures Words(word + ", " + rest, PySeparator) == [word] + Words(rest, PySeparator)
  {
    WordsStep(word, ", ", rest, PySeparator);
  }

  lemma {:induction false} PrintWords(spans: seq<Span>)
    ensures Words(Print(spans), PySeparator) == Parts(spans)
  {
    if |spans| == 1 {
      NoSeparators(spans[0]);
      WordAlone(PrintSpan(spans[0]), PySeparator);
    } else if spans != [] {
      NoSeparators(spans[0]);
      PrintTight(spans[1..]);
      WordBeforeComma(PrintSpan(spans[0]), Print(spans[1..]));
      PrintWords(spans[1..]);
    }
  }

  // ------------------------------------------------------------------ the spans read back

  lemma SpanReads(s: Span)
    requires 1 <= s.lo <= s.hi
    ensures PySpan(PrintSpan(s)) == (Some(s), SelectionIsEmpty)
    ensures TsSpan(PrintSpan(s)) == if s.hi - s.lo <= SELECTION_MAX_SPAN then Some(s) else None
  {
    ValueOfDec(s.lo);
    ValueOfDec(s.hi);
    if s.lo < s.hi {
      var a, b := Dec(s.lo), Dec(s.hi);
      var t := PrintSpan(s);
      assert t == a + ("-" + b);
      LeadingAll(a, "-" + b, IsDigit);
      assert t[|a|] == '-' && !IsDigit(t[|a|]);
      assert t[|a| + 1..] == b;
    }
  }

  lemma AscendingJoin(a: seq<nat>, b: seq<nat>)
    requires Ascending(a) && Ascending(b) && forall m, n :: m in a && n in b ==> m < n
    ensures Ascending(a + b)
  {
    var s := a + b;
    forall i, j | 0 <= i < j < |s| ensures s[i] < s[j] {
      assert i < |a| ==> s[i] in a;
      assert j >= |a| ==> s[j] in b;
    }
  }

  lemma {:induction false} ExtendedAbove(numbers: seq<nat>, lo: nat, hi: nat)
    requires lo <= hi + 1 && forall n :: n in numbers ==> n < lo
    ensures Extended(numbers, lo, hi) == numbers + Extended([], lo, hi)
    ensures |Extended([], lo, hi)| == hi + 1 - lo
    ensures forall n :: n in Extended([], lo, hi) <==> lo <= n <= hi
    ensures Ascending(Extended([], lo, hi))
    decreases hi + 1 - lo
  {
    if lo <= hi {
      ExtendedAbove(numbers + [lo], lo + 1, hi);
      ExtendedAbove([lo], lo + 1, hi);
      assert Extended([], lo, hi) == Extended([] + [lo], lo + 1, hi);
      assert [] + [lo] == [lo];
      AscendingJoin([lo], Extended([], lo + 1, hi));
    }
  }

  // The numbers of canonical spans, in order.
  lemma {:induction false} ExpandShape(spans: seq<Span>)
    requires Canonical(spans)
    ensures forall n :: n in Expand(spans) <==> n in Covered(spans)
    ensures Ascending(Expand(spans))
    ensures forall n :: n in Expand(spans) ==> spans != [] && n >= spans[0].lo
  {
    if spans != [] {
      ExtendedAbove([], spans[0].lo, spans[0].hi);
      ExpandShape(spans[1..]);
      forall n | n in Expand(spans[1..]) ensures n > spans[0].hi {
        assert spans[1..][0] == spans[1];
      }
      AscendingJoin(Extended([], spans[0].lo, spans[0].hi), Expand(spans[1..]));
    }
  }

  // Taking one span above all that was read before.
  lemma TakeOne(p: Parsed, s: Span)
    requires p.errors == [] && 1 <= s.lo <= s.hi && forall n :: n in p.numbers ==> n < s.lo
    ensures var q := PyTake(p, PrintSpan(s));
            var more := Extended([], s.lo, s.hi);
            if |p.numbers + more| <= MAX_SELECTION_SIZE then q == Parsed(p.numbers + more, [])
            else q.errors != []
    ensures forall n :: n in Extended([], s.lo, s.hi) ==> n <= s.hi
  {
    SpanReads(s);
    ExtendedAbove(p.numbers, s.lo, s.hi);
    ExtendedAbove([], s.lo, s.hi);
  }

  // Taking canonical spans, all above what was read before, as long as the limit holds.
  lemma {:induction false} TakeSpans(p: Parsed, spans: seq<Span>)
    requires Canonical(spans) && p.errors == []
    requires spans != [] ==> forall n :: n in p.numbers ==> n < spans[0].lo
    ensures var q := PyTakeAll(p, Parts(spans));
            if |p.numbers + Expand(spans)| <= MAX_SELECTION_SIZE || spans == []
            then q == Parsed(p.numbers + Expand(spans), [])
            else q.errors != []
    decreases |spans|
  {
    if spans != [] {
      TakeOne(p, spans[0]);
      assert Parts(spans)[1..] == Parts(spans[1..]);
      var q := PyTake(p, PrintSpan(spans[0]));
      if q.errors == [] {
        assert p.numbers + Expand(spans) == q.numbers + Expand(spans[1..]);
        if |spans| > 1 {
          assert spans[1..][0] == spans[1];
        }
        TakeSpans(q, spans[1..]);
      } else {
        ErrorsStay(q, Parts(spans[1..]));
      }
    }
  }

  lemma {:induction false} ErrorsStay(p: Parsed, tokens: seq<string>)
    requires p.errors != []
    ensures PyTakeAll(p, tokens).errors != []
    decreases |tokens|
  {
    if tokens != [] {
      ErrorsStay(PyTake(p, tokens[0]), tokens[1..]);
    }
  }

  lemma PrintStrips(spans: seq<Span>)
    ensures PyStrip(Print(spans)) == Print(spans)
  {
    PrintTight(spans);
    var t := Print(spans);
    if spans != [] {
      assert Leading(t, PySpace) == 0;
      assert t[..|t|] == t;
    }
  }

  lemma PrintTokens(spans: seq<Span>)
    ensures PyTokens(Print(spans)) == Parts(spans)
  {
    PrintStrips(spans);
    PrintTight(spans);
    TightStays(Print(spans), PySpace);
    PrintWords(spans);
  }

  lemma PrintIsEmpty(spans: seq<Span>)
    requires Canonical(spans)
    ensures PyStrip(Print(spans)) == "" <==> spans == []
    ensures spans != [] ==> Expand(spans) != []
  {
    PrintStrips(spans);
    PrintTight(spans);
    if spans != [] {
      ExtendedAbove([], spans[0].lo, spans[0].hi);
    }
  }

  // The Python parser gives the printed numbers back, ascending and without an error, exactly
  // when there are at most 100000 of them.
  lemma PythonReadsThePrint(spans: seq<Span>)
    requires Canonical(spans)
    ensures PyParse(Print(spans)).errors == [] <==> |Expand(spans)| <= MAX_SELECTION_SIZE
    ensures |Expand(spans)| <= MAX_SELECTION_SIZE ==> PyParse(Print(spans)).numbers == Expand(spans)
    ensures Ascending(Expand(spans)) && forall n :: n in Expand(spans) <==> n in Covered(spans)
  {
    PrintTokens(spans);
    PrintIsEmpty(spans);
    TakeSpans(Parsed([], []), spans);
    ExpandShape(spans);
    assert [] + Expand(spans) == Expand(spans);
  }

  // ------------------------------------------------------------------ the TypeScript side

  lemma {:induction false} ChunkOf(word: string, rest: string, chunk: string)
    requires forall i :: 0 <= i < |word| ==> !JsSeparator(word[i]) && !JsSpace(word[i])
    ensures Chunks(word + rest, chunk) == Chunks(rest, chunk + word)
  {
    if word == "" {
      assert word + rest == rest && chunk + word == chunk;
    } else {
      assert (word + rest)[1..] == word[1..] + rest;
      ChunkOf(word[1..], rest, chunk + [word[0]]);
      assert chunk + word == (chunk + [word[0]]) + word[1..];
    }
  }

  lemma ChunkComma(rest: string, chunk: string)
    requires rest != "" && IsDigit(rest[0])
    ensures Chunks(", " + rest, chunk) == [chunk] + Chunks(" " + rest, "")
  {
    var tail := ", " + rest;
    assert tail == "," + (" " + rest);
    LeadingAll(",", " " + rest, JsSeparator);
  }

  lemma ChunkSpace(rest: string)
    requires rest != "" && IsDigit(rest[0])
    ensures Chunks(" " + rest, "") == Chunks(rest, " ")
  {
    LeadingAll(" ", rest, JsSpace);
    assert (" " + rest)[1..] == rest;
    assert "" + [' '] == " ";
  }

  // After ", " the next chunk starts with the single space.
  lemma ChunkBreak(word: string, rest: string, chunk: string)
    requires forall i :: 0 <= i < |word| ==> !JsSeparator(word[i]) && !JsSpace(word[i])
    requires rest != "" && IsDigit(rest[0])
    ensures Chunks(word + ", " + rest, chunk) == [chunk + word] + Chunks(rest, " ")
  {
    assert word + ", " + rest == word + (", " + rest);
    ChunkOf(word, ", " + rest, chunk);
    ChunkComma(rest, chunk + word);
    ChunkSpace(rest);
  }

  predicate IsToken(t: string) {
    t != "" && IsDigit(t[0]) && Tight(t) && forall i :: 0 <= i < |t| ==> IsDigit(t[i]) || t[i] == '-'
  }

  // A chunk, a printed span with or without the space before it, holds that one token.
  lemma ChunkWord(pad: string, t: string)
    requires (pad == "" || pad == " ") && IsToken(t)
    ensures LooseTokens(pad + t) == [t]
  {
    assert TightenOps(pad + t, JsSpace) == pad + t by {
      TightPad(pad, t);
      TightStays(pad + t, JsSpace);
    }
    PaddedWord(pad, t);
  }

  lemma PaddedWord(pad: string, t: string)
    requires (pad == "" || pad == " ") && t != "" && forall i :: 0 <= i < |t| ==> IsDigit(t[i]) || t[i] == '-'
    ensures Words(pad + t, JsSpace) == [t]
  {
    WordAlone(t, JsSpace);
    LeadingAll(pad, t, JsSpace);
    LeadingAll("", t, JsSpace);
    assert "" + t == t;
    assert Skip(pad + t, JsSpace) == t == Skip(t, JsSpace);
  }

  lemma TightPad(pad: string, t: string)
    requires pad == "" || pad == " "
    requires Tight(t) && t != "" && IsDigit(t[0])
    ensures Tight(pad + t)
  {
  }

  lemma LooseHead(chunk: string, chunks: seq<string>)
    ensures Loose([chunk] + chunks) == LooseTokens(chunk) + Loose(chunks)
  {
    assert ([chunk] + chunks)[1..] == chunks;
  }

  lemma PrintLooseOne(s: Span, pad: string)
    requires pad == "" || pad == " "
    ensures Loose(Chunks(PrintSpan(s), pad)) == [PrintSpan(s)]
  {
    PrintSpanShape(s);
    LooseOne(PrintSpan(s), pad);
  }

  lemma LooseOne(t: string, pad: string)
    requires (pad == "" || pad == " ") && IsToken(t)
    ensures Loose(Chunks(t, pad)) == [t]
  {
    ChunkWord(pad, t);
    ChunkOf(t, "", pad);
    assert t + "" == t;
    assert Chunks(t, pad) == [pad + t];
    LooseHead(pad + t, []);
    assert [pad + t] + [] == [pad + t];
  }

  lemma LooseMore(t: string, rest: string, pad: string)
    requires (pad == "" || pad == " ") && IsToken(t) && rest != "" && IsDigit(rest[0])
    ensures Loose(Chunks(t + ", " + rest, pad)) == [t] + Loose(Chunks(rest, " "))
  {
    assert LooseTokens(pad + t) == [t] by {
      ChunkWord(pad, t);
    }
    ChunkBreak(t, rest, pad);
    LooseHead(pad + t, Chunks(rest, " "));
  }

  lemma PrintLooseMore(s: Span, rest: string, pad: string)
    requires (pad == "" || pad == " ") && rest != "" && IsDigit(rest[0])
    ensures Loose(Chunks(PrintSpan(s) + ", " + rest, pad)) == [PrintSpan(s)] + Loose(Chunks(rest, " "))
  {
    PrintSpanShape(s);
    LooseMore(PrintSpan(s), rest, pad);
  }

  lemma {:induction false} PrintLoose(spans: seq<Span>, pad: string)
    requires spans != [] && (pad == "" || pad == " ")
    ensures Loose(Chunks(Print(spans), pad)) == Parts(spans)
  {
    if |spans| == 1 {
      PrintLooseOne(spans[0], pad);
      assert Parts(spans[1..]) == [];
    } else {
      PrintTight(spans[1..]);
      PrintLooseMore(spans[0], Print(spans[1..]), pad);
      PrintLoose(spans[1..], " ");
    }
  }

  predicate Short(s: Span) {
    s.hi - s.lo <= SELECTION_MAX_SPAN
  }

  lemma ReadOne(token: string, rest: seq<string>)
    ensures TsRanges([token] + rest) == (if TsSpan(token).Some? then [TsSpan(token).value] else []) + TsRanges(rest)
    ensures TsInvalid([token] + rest) == (if TsSpan(token).None? then [token] else []) + TsInvalid(rest)
  {
    assert ([token] + rest)[1..] == rest;
  }

  predicate AllShort(spans: seq<Span>) {
    forall i :: 0 <= i < |spans| ==> Short(spans[i])
  }

  lemma CanonicalTail(spans: seq<Span>)
    requires Canonical(spans) && spans != []
    ensures Canonical(spans[1..]) && (AllShort(spans) <==> Short(spans[0]) && AllShort(spans[1..]))
    ensures Parts(spans) == [PrintSpan(spans[0])] + Parts(spans[1..])
  {
    assert forall i :: 0 < i < |spans| ==> spans[i] == spans[1..][i - 1];
  }

  lemma {:induction false} ReadRanges(spans: seq<Span>)
    requires Canonical(spans)
    ensures TsInvalid(Parts(spans)) == [] <==> AllShort(spans)
    ensures AllShort(spans) ==> TsRanges(Parts(spans)) == spans
  {
    if spans != [] {
      SpanReads(spans[0]);
      CanonicalTail(spans);
      ReadOne(PrintSpan(spans[0]), Parts(spans[1..]));
      ReadRanges(spans[1..]);
    }
  }

  // The TypeScript parser gives the printed numbers back with nothing invalid exactly when no
  // run spans more than 100000.
  lemma TypeScriptReadsThePrint(spans: seq<Span>)
    requires Canonical(spans)
    ensures var parsed := TsParse(Print(spans));
            && (parsed.invalid == [] <==> AllShort(spans))
            && (AllShort(spans) ==> parsed.ranges == spans && parsed.numbers == Covered(spans))
            && (parsed.empty <==> spans == [])
  {
    if spans == [] {
      assert Words("", JsSpace) == [];
      assert TightenOps("", JsSpace) == "";
      assert [""][1..] == [];
      assert TsTokens("") == [];
    } else {
      PrintLoose(spans, "");
    }
    ReadRanges(spans);
  }

  // ------------------------------------------------------------------ from numbers to numbers

  ghost function SetOf(s: seq<nat>): (r: set<nat>)
    ensures forall n :: n in r <==> n in s
  {
    if s == [] then {} else {s[0]} + SetOf(s[1..])
  }

  lemma {:induction false} AscendingSize(s: seq<nat>)
    requires Ascending(s)
    ensures |SetOf(s)| == |s|
  {
    if s != [] {
      assert s[0] !in s[1..];
      AscendingSize(s[1..]);
    }
  }

  lemma ExpandedIsGiven(numbers: seq<int>, spans: seq<Span>)
    requires Canonical(spans) && forall n :: n in Covered(spans) <==> n in numbers && n > 0
    ensures var given := set n: nat | n in numbers && n > 0;
            |Expand(spans)| == |given| && Ascending(Expand(spans)) && forall n :: n in Expand(spans) <==> n in given
  {
    ExpandShape(spans);
    AscendingSize(Expand(spans));
    assert SetOf(Expand(spans)) == set n: nat | n in numbers && n > 0;
  }

  // Whatever is printed, the server reads exactly the positive numbers given, ascending, if
  // there are at most 100000 of them, and reports an error if there are more.
  lemma ServerReadsTheNumbers(numbers: seq<int>, text: string)
    requires Prints(text, numbers)
    ensures var given := set n: nat | n in numbers && n > 0;
            var parsed := PyParse(text);
            if |given| <= MAX_SELECTION_SIZE
            then parsed.errors == [] && Ascending(parsed.numbers) && forall n :: n in parsed.numbers <==> n in given
            else parsed.errors != []
  {
    var spans: seq<Span> :| PrintsAs(text, numbers, spans);
    ExpandedIsGiven(numbers, spans);
    PythonReadsThePrint(spans);
  }

  // All of more than 100001 consecutive numbers.
  ghost predicate LongRun(numbers: seq<int>, first: nat) {
    first > 0 && forall n :: first <= n <= first + SELECTION_MAX_SPAN + 1 ==> n in numbers
  }

  // A run of consecutive numbers lies within one span.
  lemma RunInOneSpan(spans: seq<Span>, i: nat, first: nat, last: nat)
    requires Canonical(spans) && i < |spans| && spans[i].lo <= first <= spans[i].hi
    requires forall n :: first <= n <= last ==> n in Covered(spans)
    ensures last <= spans[i].hi
  {
    var n := spans[i].hi + 1;
    if n <= last {
      CoveredBy(spans, n);
      var k :| 0 <= k < |spans| && spans[k].lo <= n <= spans[k].hi;
      if k > i {
        CanonicalSpread(spans, i, k);
      } else if k < i {
        CanonicalSpread(spans, k, i);
      }
      assert false;
    }
  }

  lemma LongRunIff(numbers: seq<int>, spans: seq<Span>)
    requires Canonical(spans) && forall n :: n in Covered(spans) <==> n in numbers && n > 0
    ensures AllShort(spans) <==> (forall first :: !LongRun(numbers, first))
  {
    if first: nat :| LongRun(numbers, first) {
      CoveredBy(spans, first);
      var i :| 0 <= i < |spans| && spans[i].lo <= first <= spans[i].hi;
      RunInOneSpan(spans, i, first, first + SELECTION_MAX_SPAN + 1);
      assert !Short(spans[i]);
    }
    if i :| 0 <= i < |spans| && !Short(spans[i]) {
      forall n | spans[i].lo <= n <= spans[i].lo + SELECTION_MAX_SPAN + 1 ensures n in numbers {
        CoveredBy(spans, n);
        assert n in Covered(spans);
      }
      assert LongRun(numbers, spans[i].lo);
    }
  }

  // The browser reads them back with nothing invalid exactly when they hold no such run.
  lemma BrowserReadsTheNumbers(numbers: seq<int>, text: string)
    requires Prints(text, numbers)
    ensures var parsed := TsParse(text);
            && (parsed.invalid == [] <==> forall first :: !LongRun(numbers, first))
            && (parsed.invalid == [] ==> forall n :: n in parsed.numbers <==> n in numbers && n > 0)
  {
    var spans: seq<Span> :| PrintsAs(text, numbers, spans);
    TypeScriptReadsThePrint(spans);
    LongRunIff(numbers, spans);
  }

  // ------------------------------------------------------------------ minimality

  // No list of spans that covers the same numbers is shorter than the canonical one.
  lemma CanonicalIsShortest(spans: seq<Span>, others: seq<Span>)
    requires Canonical(spans) && Covered(spans) == Covered(others)
    ensures |spans| <= |others|
  {
    var starts := set i | 0 <= i < |spans| :: spans[i].lo;
    var lows := set j | 0 <= j < |others| :: others[j].lo;
    forall i | 0 <= i < |spans| ensures spans[i].lo in lows {
      StartIsALow(spans, others, i);
    }
    SizeOfImage(spans);
    SizeAtMost(others);
    assert starts <= lows;
    SubsetSize(starts, lows);
  }

  lemma {:induction false} CoveredBy(spans: seq<Span>, n: nat)
    ensures n in Covered(spans) <==> exists i :: 0 <= i < |spans| && spans[i].lo <= n <= spans[i].hi
  {
    if spans != [] {
      CoveredBy(spans[1..], n);
      if i :| 0 <= i < |spans| && spans[i].lo <= n <= spans[i].hi {
        assert i > 0 ==> spans[1..][i - 1] == spans[i];
      }
      if n in Covered(spans[1..]) {
        var i :| 0 <= i < |spans[1..]| && spans[1..][i].lo <= n <= spans[1..][i].hi;
        assert spans[i + 1] == spans[1..][i];
      }
    }
  }

  lemma {:induction false} CanonicalSpread(spans: seq<Span>, i: nat, j: nat)
    requires Canonical(spans) && i < j < |spans|
    ensures spans[i].hi + 1 < spans[j].lo
    decreases j
  {
    if i < j - 1 {
      CanonicalSpread(spans, i, j - 1);
    }
  }

  // A span of `others` that covers the start of a run starts there: the number before is not covered.
  lemma StartIsALow(spans: seq<Span>, others: seq<Span>, i: nat)
    requires Canonical(spans) && Covered(spans) == Covered(others) && i < |spans|
    ensures exists j :: 0 <= j < |others| && others[j].lo == spans[i].lo
  {
    var n := spans[i].lo;
    CoveredBy(spans, n);
    CoveredBy(others, n);
    var j :| 0 <= j < |others| && others[j].lo <= n <= others[j].hi;
    GapBefore(spans, i);
    CoveredBy(others, n - 1);
  }

  // The number before a run is in no run.
  lemma GapBefore(spans: seq<Span>, i: nat)
    requires Canonical(spans) && i < |spans|
    ensures spans[i].lo - 1 !in Covered(spans)
  {
    var n := spans[i].lo - 1;
    CoveredBy(spans, n);
    forall k | 0 <= k < |spans| ensures !(spans[k].lo <= n <= spans[k].hi) {
      if k < i {
        CanonicalSpread(spans, k, i);
      } else if k > i {
        CanonicalSpread(spans, i, k);
      }
    }
  }

  lemma {:induction false} SizeOfImage(spans: seq<Span>)
    requires Canonical(spans)
    ensures |set i | 0 <= i < |spans| :: spans[i].lo| == |spans|
  {
    if spans != [] {
      var rest := spans[..|spans| - 1];
      SizeOfImage(rest);
      var last := spans[|spans| - 1].lo;
      forall i | 0 <= i < |rest| ensures spans[i].lo != last {
        CanonicalSpread(spans, i, |spans| - 1);
      }
      assert (set i | 0 <= i < |spans| :: spans[i].lo) == (set i | 0 <= i < |rest| :: rest[i].lo) + {last};
    }
  }

  lemma {:induction false} SizeAtMost(spans: seq<Span>)
    ensures |set i | 0 <= i < |spans| :: spans[i].lo| <= |spans|
  {
    if spans != [] {
      var rest := spans[..|spans| - 1];
      SizeAtMost(rest);
      var last := spans[|spans| - 1].lo;
      assert (set i | 0 <= i < |spans| :: spans[i].lo) == (set i | 0 <= i < |rest| :: rest[i].lo) + {last};
    }
  }

  // ------------------------------------------------------------------ where the parsers differ

  // On text the printer never emits they may disagree: doubled spaces before a dash split a
  // range in the browser and not on the server.
  lemma ParsersDisagree()
    ensures PyParse("1  -2") == Parsed([1, 2], [])
    ensures TsParse("1  -2") == TsParsed([Span(1, 1)], ["-2"], {1}, false)
  {
    DisagreePython();
    DisagreeTypeScript();
  }

  lemma DisagreePython()
    ensures PyParse("1  -2") == Parsed([1, 2], [])
  {
    DisagreeTokens();
    DisagreeTake();
    var none, p := Parsed([], []), Parsed([1, 2], []);
    assert PyTakeAll(none, ["1-2"]) == PyTakeAll(p, ["1-2"][1..]);
    assert ["1-2"][1..] == [] && PyTakeAll(p, []) == p;
  }

  lemma DisagreeTake()
    ensures PyTake(Parsed([], []), "1-2") == Parsed([1, 2], [])
  {
    SpanOfOneTwo();
    assert Extended([1, 2], 3, 2) == [1, 2];
    assert Extended([1], 2, 2) == [1, 2];
    assert Extended([], 1, 2) == [1, 2];
  }

  lemma DisagreeTokens()
    ensures PyTokens("1  -2") == ["1-2"]
  {
    var s := "1  -2";
    assert PyStrip(s) == s by {
      assert Leading(s, PySpace) == 0 && Trailing(s) == 0;
    }
    DisagreeTight();
    DisagreeWords();
  }

  lemma DisagreeTight()
    ensures TightenOps("1  -2", PySpace) == "1-2"
  {
    var s := "1  -2";
    assert s[1..] == "  -2" && "  -2"[1..] == " -2" && " -2"[1..] == "-2" && "-2"[1..] == "2";
    assert Leading("2", PySpace) == 0 && Leading("-2", PySpace) == 0 && Leading(s, PySpace) == 0;
    assert Leading(" -2", PySpace) == 1;
    assert Leading("  -2", PySpace) == 2;
    assert TightenOps("2", PySpace) == "2";
    assert "  -2"[2..] == "-2" && "-2"[..1] == "-";
    assert TightenOps("  -2", PySpace) == "-2";
  }

  lemma DisagreeWords()
    ensures Words("1-2", PySeparator) == ["1-2"]
  {
    WordsStep("1-2", "", "", PySeparator);
    assert "1-2" + "" + "" == "1-2" && Words("", PySeparator) == [];
  }

  lemma SpanOfOneTwo()
    ensures PySpan("1-2").0 == Some(Span(1, 2))
  {
    var t := "1-2";
    assert t[1..] == "-2" && t[2..] == "2" && t[..1] == "1";
    assert Leading("-2", IsDigit) == 0 && Leading(t, IsDigit) == 1;
    assert Value("1") == 1 && Value("2") == 2;
    assert MatchRange(t) == Some(Span(1, 2));
  }

  lemma DisagreeTypeScript()
    ensures TsParse("1  -2") == TsParsed([Span(1, 1)], ["-2"], {1}, false)
  {
    DisagreeChunks();
    DisagreeLoose();
    LooseHead("1", ["-2"]);
    LooseHead("-2", []);
    assert ["1"] + ["-2"] == ["1", "-2"] && ["-2"] + [] == ["-2"];
    DisagreeSpans();
  }

  lemma DisagreeSpans()
    ensures TsRanges(["1", "-2"]) == [Span(1, 1)] && TsInvalid(["1", "-2"]) == ["-2"]
    ensures Covered([Span(1, 1)]) == {1}
  {
    assert Leading("-2", IsDigit) == 0 && Value("1") == 1;
    assert TsSpan("1") == Some(Span(1, 1)) && TsSpan("-2") == None;
    assert ["1", "-2"][1..] == ["-2"] && ["-2"][1..] == [];
    assert TsRanges(["-2"]) == [] && TsInvalid(["-2"]) == ["-2"];
    assert Interval(1, 1) == {1};
  }

  lemma DisagreeChunks()
    ensures Chunks("1  -2", "") == ["1", "-2"]
  {
    ChunkOf("1", "  -2", "");
    assert "1" + "  -2" == "1  -2" && "" + "1" == "1";
    DisagreeRest();
    LeadingAll("  ", "-2", JsSpace);
    assert "  " + "-2" == "  -2" && "  -2"[2..] == "-2";
    assert ["1"] + ["-2"] == ["1", "-2"];
  }

  lemma DisagreeRest()
    ensures Chunks("-2", "") == ["-2"]
  {
    ChunkOf("-2", "", "");
    assert "-2" + "" == "-2" && "" + "-2" == "-2";
  }

  lemma DisagreeLoose()
    ensures LooseTokens("1") == ["1"] && LooseTokens("-2") == ["-2"]
  {
    ChunkWord("", "1");
    assert "" + "1" == "1";
    DisagreeDash();
  }

  lemma DisagreeDash()
    ensures LooseTokens("-2") == ["-2"]
  {
    DashWord("-2");
  }

  lemma DashWord(t: string)
    requires t != "" && Tight(t) && forall i :: 0 <= i < |t| ==> IsDigit(t[i]) || t[i] == '-'
    ensures LooseTokens(t) == [t]
  {
    TightStays(t, JsSpace);
    WordsStep(t, "", "", JsSpace);
    assert t + "" + "" == t && Words("", JsSpace) == [];
  }
}
