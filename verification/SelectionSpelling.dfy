/**
 Every spelling of a list of numbers and ranges is read as that list: any operator, blanks beside it,
 any separators (src/copycast/domain/selection.py:14-73, web/src/lib/selection.ts:1-88).
 */
module SelectionSpelling {
  import opened Basics
  import opened Decimal
  import opened SelectionText
  import opened SelectionRoundTrip
  import opened SelectionScan
  import opened SelectionAgreement

  // A number, or a range with what is written around its operator; digits may lead with zeros.
  datatype Piece =
    | Number(digits: string)
    | Range(lo: string, before: string, op: string, after: string, hi: string)
  {
    function Text(): string {
      if Number? then digits else lo + before + op + after + hi
    }

    function Token(): string {
      if Number? then digits else lo + op + hi
    }

    predicate Written() {
      if Number? then Numeral(digits)
      else Numeral(lo) && Numeral(hi) && (op == "-" || op == "\U{2013}" || op == "..")
    }

    function Reads(): Span
      requires Written()
    {
      if Number? then Span(Value(digits), Value(digits)) else Span(Value(lo), Value(hi))
    }
  }

  predicate Numeral(s: string) {
    s != "" && AllDigits(s)
  }

  // A piece and the separators after it.
  datatype Item = Item(piece: Piece, sep: string)

  function TextOf(items: seq<Item>): string {
    if items == [] then "" else items[0].piece.Text() + (items[0].sep + TextOf(items[1..]))
  }

  function TokensOf(items: seq<Item>): seq<string> {
    seq(|items|, i requires 0 <= i < |items| => items[i].piece.Token())
  }

  function SpansOf(items: seq<Item>): seq<Span>
    requires forall i :: 0 <= i < |items| ==> items[i].piece.Written()
  {
    seq(|items|, i requires 0 <= i < |items| => items[i].piece.Reads())
  }

  // Separators after every piece but the last, and beside an operator nothing or what `joins` takes.
  ghost predicate Spelled(items: seq<Item>, sep: char -> bool, joins: string -> bool) {
    forall i :: 0 <= i < |items| ==> SpelledItem(items[i], i + 1 == |items|, sep, joins)
  }

  ghost predicate SpelledItem(item: Item, last: bool, sep: char -> bool, joins: string -> bool) {
    && item.piece.Written() && AllOf(item.sep, sep) && (item.sep == "" ==> last)
    && (item.piece.Range? ==> Gap(item.piece.before, sep, joins) && Gap(item.piece.after, sep, joins))
  }

  ghost predicate Gap(g: string, sep: char -> bool, joins: string -> bool) {
    g == "" || (AllOf(g, sep) && joins(g))
  }

  // Digits and operators are no separators.
  ghost predicate Plain(sep: char -> bool) {
    !sep('-') && !sep('\U{2013}') && !sep('.') && forall c :: IsDigit(c) ==> !sep(c)
  }

  // Commas, semicolons and whitespace separate; digits and operators do not.
  lemma Separators()
    ensures Plain(PySeparator) && Plain(IsSep)
    ensures forall c :: c in {',', ';', ' ', '\t', '\n', '\r'} ==> PySeparator(c) && IsSep(c)
    ensures Blank(" ") && Blank("\t \n") && Single(" ") && Single("\t") && !Single("\n") && !Single("  ")
  {
  }

  // ------------------------------------------------------------------ the tokens

  lemma {:induction false} ScanDigits(
    digits: string, rest: string, cur: string, afterOp: bool, sep: char -> bool, joins: string -> bool)
    requires Plain(sep) && Numeral(digits)
    ensures Scan(digits + rest, cur, afterOp, sep, joins) == Scan(rest, cur + digits, false, sep, joins)
    decreases |digits|
  {
    var s := digits + rest;
    assert s[0] == digits[0] && OpLen(s) == 0;
    assert s[1..] == digits[1..] + rest && s[..1] == digits[..1];
    if |digits| > 1 {
      ScanDigits(digits[1..], rest, cur + digits[..1], false, sep, joins);
      Regroup(cur, digits[..1], digits[1..]);
      assert digits[..1] + digits[1..] == digits;
    } else {
      assert digits[1..] + rest == rest && digits[..1] == digits;
    }
  }

  lemma OpLenIs(op: string, rest: string)
    requires op == "-" || op == "\U{2013}" || op == ".."
    ensures OpLen(op + rest) == |op| && !IsDigit(op[0])
    ensures (op + rest)[..|op|] == op && (op + rest)[|op|..] == rest && (op + rest)[0] == op[0]
  {
    if op == ".." {
      assert (op + rest)[1] == op[1];
    }
  }

  lemma ScanOp(op: string, rest: string, cur: string, sep: char -> bool, joins: string -> bool)
    requires Plain(sep) && (op == "-" || op == "\U{2013}" || op == "..")
    ensures Scan(op + rest, cur, false, sep, joins) == Scan(rest, cur + op, true, sep, joins)
  {
    OpLenIs(op, rest);
  }

  // A gap beside an operator ends no token.
  lemma ScanBridge(g: string, rest: string, cur: string, afterOp: bool, sep: char -> bool, joins: string -> bool)
    requires Gap(g, sep, joins) && cur != "" && rest != "" && !sep(rest[0])
    requires afterOp || OpLen(rest) > 0
    ensures g != "" ==> Scan(g + rest, cur, afterOp, sep, joins) == Scan(rest, cur, false, sep, joins)
    ensures g == "" ==> g + rest == rest
  {
    if g != "" {
      var s := g + rest;
      assert s[..|g|] == g && s[|g|..] == rest && s[|g|] == rest[0];
      LeadingIs(s, sep, |g|);
    } else {
      assert g + rest == rest;
    }
  }

  // Any other gap ends one.
  lemma ScanApart(g: string, rest: string, cur: string, sep: char -> bool, joins: string -> bool)
    requires AllOf(g, sep) && cur != "" && g != "" && rest != "" && !sep(rest[0]) && OpLen(rest) == 0
    ensures Scan(g + rest, cur, false, sep, joins) == [cur] + Scan(rest, "", false, sep, joins)
  {
    var s := g + rest;
    assert s[..|g|] == g && s[|g|..] == rest && s[|g|] == rest[0];
    LeadingIs(s, sep, |g|);
  }

  lemma DigitFirst(digits: string, rest: string, sep: char -> bool)
    requires Plain(sep) && Numeral(digits)
    ensures digits + rest != "" && !sep((digits + rest)[0]) && OpLen(digits + rest) == 0
  {
    assert (digits + rest)[0] == digits[0];
  }

  lemma OpFirst(op: string, rest: string, sep: char -> bool)
    requires Plain(sep) && (op == "-" || op == "\U{2013}" || op == "..")
    ensures op + rest != "" && !sep((op + rest)[0])
  {
    assert (op + rest)[0] == op[0];
  }

  lemma ScanAfterRangeOp(
    after: string, hi: string, rest: string, cur: string, sep: char -> bool, joins: string -> bool)
    requires Plain(sep) && Numeral(hi) && Gap(after, sep, joins) && cur != ""
    ensures Scan(after + (hi + rest), cur, true, sep, joins) == Scan(rest, cur + hi, false, sep, joins)
  {
    DigitFirst(hi, rest, sep);
    ScanBridge(after, hi + rest, cur, true, sep, joins);
    ScanDigits(hi, rest, cur, true, sep, joins);
    ScanDigits(hi, rest, cur, false, sep, joins);
  }

  lemma ScanFromRangeOp(p: Piece, rest: string, cur: string, sep: char -> bool, joins: string -> bool)
    requires Plain(sep) && p.Range? && p.Written() && cur != ""
    requires Gap(p.before, sep, joins) && Gap(p.after, sep, joins)
    ensures Scan(p.before + (p.op + (p.after + (p.hi + rest))), cur, false, sep, joins) ==
            Scan(rest, cur + p.op + p.hi, false, sep, joins)
  {
    var tail := p.after + (p.hi + rest);
    OpFirst(p.op, tail, sep);
    ScanOp(p.op, tail, cur, sep, joins);
    ScanBridge(p.before, p.op + tail, cur, false, sep, joins);
    ScanAfterRangeOp(p.after, p.hi, rest, cur + p.op, sep, joins);
  }

  // One piece is one token.
  lemma ScanPiece(p: Piece, rest: string, sep: char -> bool, joins: string -> bool)
    requires Plain(sep) && p.Written()
    requires p.Range? ==> Gap(p.before, sep, joins) && Gap(p.after, sep, joins)
    ensures Scan(p.Text() + rest, "", false, sep, joins) == Scan(rest, p.Token(), false, sep, joins)
  {
    if p.Number? {
      ScanDigits(p.digits, rest, "", false, sep, joins);
      assert "" + p.digits == p.digits;
    } else {
      var tail := p.before + (p.op + (p.after + (p.hi + rest)));
      assert p.Text() + rest == p.lo + tail;
      ScanDigits(p.lo, tail, "", false, sep, joins);
      assert "" + p.lo == p.lo;
      ScanFromRangeOp(p, rest, p.lo, sep, joins);
    }
  }

  lemma PieceFirst(p: Piece, rest: string, sep: char -> bool)
    requires Plain(sep) && p.Written()
    ensures p.Text() + rest != "" && !sep((p.Text() + rest)[0]) && OpLen(p.Text() + rest) == 0
    ensures p.Token() != ""
  {
    if p.Number? {
      DigitFirst(p.digits, rest, sep);
    } else {
      var tail := p.before + (p.op + (p.after + (p.hi + rest)));
      assert p.Text() + rest == p.lo + tail;
      DigitFirst(p.lo, tail, sep);
    }
  }

  lemma {:induction false} ScanItems(items: seq<Item>, sep: char -> bool, joins: string -> bool)
    requires Plain(sep) && Spelled(items, sep, joins)
    ensures Scan(TextOf(items), "", false, sep, joins) == TokensOf(items)
  {
    if items != [] {
      var p, g, rest := items[0].piece, items[0].sep, TextOf(items[1..]);
      assert SpelledItem(items[0], 1 == |items|, sep, joins);
      assert Spelled(items[1..], sep, joins) by {
        forall i | 0 <= i < |items[1..]|
          ensures SpelledItem(items[1..][i], i + 1 == |items[1..]|, sep, joins)
        {
          assert SpelledItem(items[i + 1], i + 2 == |items|, sep, joins);
        }
      }
      ScanPiece(p, g + rest, sep, joins);
      PieceFirst(p, g + rest, sep);
      assert TokensOf(items) == [p.Token()] + TokensOf(items[1..]);
      if |items| == 1 {
        assert g + rest == g;
        ScanAllGap(g, p.Token(), false, sep, joins);
      } else {
        var next := items[1..][0];
        assert SpelledItem(items[1], 2 == |items|, sep, joins);
        PieceFirst(next.piece, next.sep + TextOf(items[1..][1..]), sep);
        ScanApart(g, rest, p.Token(), sep, joins);
        ScanItems(items[1..], sep, joins);
      }
    }
  }

  // Separators before the first piece change nothing.
  lemma ScanLead(lead: string, items: seq<Item>, sep: char -> bool, joins: string -> bool)
    requires Plain(sep) && Spelled(items, sep, joins) && AllOf(lead, sep)
    ensures Scan(lead + TextOf(items), "", false, sep, joins) == TokensOf(items)
  {
    var s := lead + TextOf(items);
    assert s[..|lead|] == lead && s[|lead|..] == TextOf(items);
    ScanFromGap(s, |lead|, sep, joins);
    ScanItems(items, sep, joins);
  }

  // ------------------------------------------------------------------ what a token says

  // A range token, its operator the only thing between two numerals.
  lemma RangeReads(lo: string, op: string, hi: string)
    requires Numeral(lo) && Numeral(hi) && (op == "-" || op == "\U{2013}" || op == "..")
    ensures MatchRange(lo + op + hi) == Some(Span(Value(lo), Value(hi)))
    ensures !AllDigits(lo + op + hi)
  {
    var token := lo + op + hi;
    OpLenIs(op, hi);
    assert token == lo + (op + hi);
    LeadingAll(lo, op + hi, IsDigit);
    RangeParts(lo, op, hi);
    assert !IsDigit(token[|lo|]);
  }

  lemma RangeParts(lo: string, op: string, hi: string)
    ensures var token := lo + op + hi;
            token[..|lo|] == lo && token[|lo|..] == op + hi && token[|lo| + |op|..] == hi
  {
  }

  // The server's verdict on a token, and the browser's: a range may not run backwards, numbers
  // start at 1, and the browser takes no range that spans more than 100000.
  lemma TokenSays(p: Piece)
    requires p.Written()
    ensures var s := p.Reads();
            && PySpan(p.Token()) == (if s.lo > s.hi then (None, StartExceedsEnd)
                                     else if s.lo == 0 then (None, BelowOne)
                                     else (Some(s), SelectionIsEmpty))
            && TsSpan(p.Token()) == (if 1 <= s.lo <= s.hi && s.hi - s.lo <= 100000 then Some(s) else None)
  {
    if p.Range? {
      RangeReads(p.lo, p.op, p.hi);
    }
  }

  // A token that is no written piece is no number and no range, to either.
  lemma OtherTokens(token: string)
    ensures || (PySpan(token) == (None, NotANumberOrRange) && TsSpan(token) == None)
            || exists p: Piece :: p.Written() && p.Token() == token
  {
    if token != "" && AllDigits(token) {
      var p := Number(token);
      assert p.Written() && p.Token() == token;
    } else if MatchRange(token).Some? {
      var n := Leading(token, IsDigit);
      var k := OpLen(token[n..]);
      var p := Range(token[..n], "", token[n..][..k], "", token[n + k..]);
      OperatorText(token[n..]);
      assert p.Written() && p.Token() == token;
    }
  }

  lemma OperatorText(s: string)
    requires OpLen(s) > 0
    ensures var op := s[..OpLen(s)]; op == "-" || op == "\U{2013}" || op == ".."
  {
  }

  // ------------------------------------------------------------------ the server

  // The numbers of the spans in the order they are mentioned, each once.
  function Mentioned(spans: seq<Span>): seq<nat> {
    FirstTimes(Expand(spans))
  }

  lemma {:induction false} ExtendedIsFirstTimes(numbers: seq<nat>, lo: nat, hi: nat)
    requires FirstTimes(numbers) == numbers
    ensures Extended(numbers, lo, hi) == FirstTimes(numbers + Extended([], lo, hi))
    ensures FirstTimes(Extended(numbers, lo, hi)) == Extended(numbers, lo, hi)
    decreases hi + 1 - lo
  {
    if lo > hi {
      assert numbers + [] == numbers;
    } else {
      var numbers' := if lo in numbers then numbers else numbers + [lo];
      assert (numbers + [lo])[..|numbers|] == numbers;
      assert FirstTimes(numbers + [lo]) == numbers' == FirstTimes(numbers');
      ExtendedIsFirstTimes(numbers', lo + 1, hi);
      ExtendedHead(lo, hi);
      Regroup(numbers, [lo], Extended([], lo + 1, hi));
      FirstTimesGoOn(numbers + [lo], numbers', Extended([], lo + 1, hi));
    }
  }

  lemma ExtendedHead(lo: nat, hi: nat)
    requires lo <= hi
    ensures Extended([], lo, hi) == [lo] + Extended([], lo + 1, hi)
  {
    ExtendedAbove([lo], lo + 1, hi);
    assert [] + [lo] == [lo];
  }

  predicate Positive(spans: seq<Span>) {
    forall i :: 0 <= i < |spans| ==> 1 <= spans[i].lo <= spans[i].hi
  }

  lemma ItemsTail(items: seq<Item>)
    requires items != [] && forall i :: 0 <= i < |items| ==> items[i].piece.Written()
    ensures forall i :: 0 <= i < |items[1..]| ==> items[1..][i].piece.Written()
    ensures SpansOf(items) == [items[0].piece.Reads()] + SpansOf(items[1..])
    ensures TokensOf(items) == [items[0].piece.Token()] + TokensOf(items[1..])
    ensures TokensOf(items)[0] == items[0].piece.Token() && TokensOf(items)[1..] == TokensOf(items[1..])
    ensures Positive(SpansOf(items)) ==>
              1 <= items[0].piece.Reads().lo <= items[0].piece.Reads().hi && Positive(SpansOf(items[1..]))
  {
    assert SpansOf(items)[0] == items[0].piece.Reads();
    assert forall i :: 0 <= i < |items[1..]| ==> SpansOf(items[1..])[i] == SpansOf(items)[i + 1];
  }

  // The limit lets the next span through.
  lemma FitsNext(spans: seq<Span>, s: Span, rest: seq<Span>)
    requires FitsServer(spans + ([s] + rest))
    ensures |Covered(spans)| + (s.hi - s.lo + 1) <= 100000
    ensures FitsServer(spans + [s] + rest)
  {
    var all := spans + ([s] + rest);
    assert all[..|spans|] == spans && all[|spans|] == s;
    Regroup(spans, [s], rest);
  }

  // The numbers a parse holds when it took these spans.
  ghost predicate Took(p: Parsed, spans: seq<Span>) {
    && p.errors == [] && p.numbers == Mentioned(spans) && FirstTimes(p.numbers) == p.numbers
    && HoldsOnce(p.numbers, Covered(spans))
  }

  lemma {:induction false} ExpandMore(spans: seq<Span>, s: Span)
    ensures Expand(spans + [s]) == Expand(spans) + Extended([], s.lo, s.hi)
  {
    if spans == [] {
      assert [] + [s] == [s] && [s][1..] == [];
    } else {
      assert (spans + [s])[1..] == spans[1..] + [s];
      ExpandMore(spans[1..], s);
    }
  }

  lemma TakeMore(p: Parsed, spans: seq<Span>, piece: Piece)
    requires Took(p, spans) && piece.Written() && 1 <= piece.Reads().lo <= piece.Reads().hi
    requires var s := piece.Reads(); |Covered(spans)| + (s.hi - s.lo + 1) <= 100000
    ensures Took(PyTake(p, piece.Token()), spans + [piece.Reads()])
  {
    var s := piece.Reads();
    TokenSays(piece);
    HeldCount(p.numbers, Covered(spans));
    assert |p.numbers| + (s.hi - s.lo + 1) <= MAX_SELECTION_SIZE;
    assert PyTake(p, piece.Token()) == Parsed(Extended(p.numbers, s.lo, s.hi), []);
    MentionMore(p.numbers, spans, s);
    ExtendedHolds(p.numbers, Covered(spans), s.lo, s.hi);
    CoveredMore(spans, s);
    assert Covered(spans) + Interval(s.lo, s.hi) == Covered(spans + [s]);
  }

  lemma MentionMore(numbers: seq<nat>, spans: seq<Span>, s: Span)
    requires numbers == Mentioned(spans) && FirstTimes(numbers) == numbers
    ensures Extended(numbers, s.lo, s.hi) == Mentioned(spans + [s])
    ensures FirstTimes(Extended(numbers, s.lo, s.hi)) == Extended(numbers, s.lo, s.hi)
  {
    ExtendedIsFirstTimes(numbers, s.lo, s.hi);
    ExpandMore(spans, s);
    FirstTimesGoOn(numbers, Expand(spans), Extended([], s.lo, s.hi));
  }

  lemma {:induction false} TakeItems(p: Parsed, spans: seq<Span>, items: seq<Item>)
    requires Took(p, spans) && forall i :: 0 <= i < |items| ==> items[i].piece.Written()
    requires Positive(SpansOf(items))
    requires FitsServer(spans + SpansOf(items))
    ensures Took(PyTakeAll(p, TokensOf(items)), spans + SpansOf(items))
    decreases |items|
  {
    if items == [] {
      assert spans + [] == spans;
    } else {
      var s, rest := items[0].piece.Reads(), items[1..];
      ItemsTail(items);
      FitsNext(spans, s, SpansOf(rest));
      TakeMore(p, spans, items[0].piece);
      TakeItems(PyTake(p, items[0].piece.Token()), spans + [s], rest);
      Regroup(spans, [s], SpansOf(rest));
    }
  }

  // The server reads every spelling of positive ranges within its limit without an error: the
  // numbers in the order they are mentioned, each once.
  lemma ServerReadsAnySpelling(lead: string, items: seq<Item>)
    requires items != [] && Spelled(items, PySeparator, Blank) && AllOf(lead, PySeparator)
    requires Positive(SpansOf(items))
    requires FitsServer(SpansOf(items))
    ensures PyParse(lead + TextOf(items)) == Parsed(Mentioned(SpansOf(items)), [])
  {
    SpelledIsWritten(items, PySeparator, Blank);
    ServerTokens(lead, items);
    TookNothing();
    assert [] + SpansOf(items) == SpansOf(items);
    TakeItems(Parsed([], []), [], items);
    MentionsSome(SpansOf(items));
  }

  lemma SpelledIsWritten(items: seq<Item>, sep: char -> bool, joins: string -> bool)
    requires Spelled(items, sep, joins)
    ensures forall i :: 0 <= i < |items| ==> items[i].piece.Written()
  {
    forall i | 0 <= i < |items| ensures items[i].piece.Written() {
      assert SpelledItem(items[i], i + 1 == |items|, sep, joins);
    }
  }

  lemma ServerTokens(lead: string, items: seq<Item>)
    requires Spelled(items, PySeparator, Blank) && AllOf(lead, PySeparator)
    ensures PyTokens(lead + TextOf(items)) == TokensOf(items)
  {
    PyTokensAreScanned(lead + TextOf(items));
    Separators();
    ScanLead(lead, items, PySeparator, Blank);
  }

  lemma TookNothing()
    ensures Took(Parsed([], []), [])
  {
  }

  lemma MentionsSome(spans: seq<Span>)
    requires spans != [] && spans[0].lo <= spans[0].hi
    ensures Mentioned(spans) != []
  {
    ExtendedHead(spans[0].lo, spans[0].hi);
    assert spans[0].lo in Expand(spans);
  }

  // ------------------------------------------------------------------ the browser

  lemma {:induction false} ReadItems(items: seq<Item>)
    requires forall i :: 0 <= i < |items| ==> items[i].piece.Written()
    requires Positive(SpansOf(items)) && forall s :: s in SpansOf(items) ==> s.hi - s.lo <= 100000
    ensures TsRanges(TokensOf(items)) == SpansOf(items) && TsInvalid(TokensOf(items)) == []
  {
    if items != [] {
      ItemsTail(items);
      assert items[0].piece.Reads() in SpansOf(items);
      assert forall x :: x in SpansOf(items[1..]) ==> x in SpansOf(items);
      TokenSays(items[0].piece);
      ReadOne(items[0].piece.Token(), TokensOf(items[1..]));
      ReadItems(items[1..]);
    }
  }

  // The browser reads every spelling with at most one blank on each side of an operator as its
  // ranges, nothing invalid, as long as none spans more than 100000.
  lemma BrowserReadsAnySpelling(lead: string, items: seq<Item>)
    requires items != [] && Spelled(items, IsSep, Single) && AllOf(lead, IsSep)
    requires Positive(SpansOf(items)) && forall s :: s in SpansOf(items) ==> s.hi - s.lo <= 100000
    ensures var parsed := TsParse(lead + TextOf(items));
            && parsed.ranges == SpansOf(items) && parsed.invalid == [] && !parsed.empty
            && IsUnion(parsed.numbers, SpansOf(items))
  {
    SpelledIsWritten(items, IsSep, Single);
    BrowserTokens(lead, items);
    ReadItems(items);
    CoveredIsUnion(SpansOf(items));
  }

  // The numbers some span holds.
  ghost predicate IsUnion(numbers: set<nat>, spans: seq<Span>) {
    forall n :: n in numbers <==> exists i :: 0 <= i < |spans| && spans[i].lo <= n <= spans[i].hi
  }

  lemma CoveredIsUnion(spans: seq<Span>)
    ensures IsUnion(Covered(spans), spans)
  {
    forall n: nat ensures n in Covered(spans) <==> exists i :: 0 <= i < |spans| && spans[i].lo <= n <= spans[i].hi {
      CoveredBy(spans, n);
    }
  }

  lemma BrowserTokens(lead: string, items: seq<Item>)
    requires Spelled(items, IsSep, Single) && AllOf(lead, IsSep)
    ensures TsTokens(lead + TextOf(items)) == TokensOf(items)
  {
    TsTokensAreScanned(lead + TextOf(items));
    Separators();
    ScanLead(lead, items, IsSep, Single);
  }
}
