/**
 When the two selection parsers take a text alike (src/copycast/domain/selection.py:28-64,
 web/src/lib/selection.ts:29-81): the same tokens, and the same verdict on them.
 */
module SelectionAgreement {
  import opened Basics
  import opened Decimal
  import opened SelectionText
  import opened SelectionRoundTrip
  import opened SelectionScan

  // ------------------------------------------------------------------ the same tokens

  // Both sides call the same characters of the text blank.
  ghost predicate Common(text: string) {
    forall i :: 0 <= i < |text| ==> (PySpace(text[i]) <==> JsSpace(text[i]))
  }

  lemma PyTokensCommon(text: string)
    requires Common(text)
    ensures PyTokens(text) == Scan(text, "", false, IsSep, BlankTs)
  {
    PyTokensAreScanned(text);
    forall i, j | 0 <= i < j <= |text| ensures Blank(text[i..j]) <==> BlankTs(text[i..j]) {
      CommonBlank(text, i, j);
    }
    ScanSame(text, "", false, PySeparator, Blank, IsSep, BlankTs);
  }

  lemma CommonBlank(text: string, i: nat, j: nat)
    requires Common(text) && i < j <= |text|
    ensures Blank(text[i..j]) <==> BlankTs(text[i..j])
  {
    assert forall k :: 0 <= k < j - i ==> text[i..j][k] == text[i + k];
  }

  // Somewhere a range operator has next to it, with something on the other side, two blanks or
  // more or a line break. `inToken` says a token was begun before `s`, `afterOp` that it ends with
  // an operator.
  predicate BreaksRange(s: string, inToken: bool, afterOp: bool)
    decreases |s|
  {
    if s == "" then false
    else if !IsSep(s[0]) then BreaksRange(s[if OpLen(s) > 0 then OpLen(s) else 1..], true, OpLen(s) > 0)
    else
      var g := Leading(s, IsSep);
      || (inToken && g < |s| && (afterOp || OpLen(s[g..]) > 0) && BlankTs(s[..g]) && !Single(s[..g]))
      || BreaksRange(s[g..], false, false)
  }

  // From a character on, whether a token was begun before plays no part.
  lemma BreaksAnyway(s: string, inToken: bool)
    requires s == "" || !IsSep(s[0])
    ensures BreaksRange(s, inToken, false) == BreaksRange(s, false, false)
  {
  }

  // How many tokens there are does not depend on what the first one began with.
  lemma {:induction false} SameCount(s: string, cur: string, cur': string, afterOp: bool, joins: string -> bool)
    requires cur != "" && cur' != ""
    ensures |Scan(s, cur, afterOp, IsSep, joins)| == |Scan(s, cur', afterOp, IsSep, joins)|
    decreases |s|
  {
    if s != "" {
      if !IsSep(s[0]) {
        var k := if OpLen(s) > 0 then OpLen(s) else 1;
        SameCount(s[k..], cur + s[..k], cur' + s[..k], OpLen(s) > 0, joins);
      } else {
        SameCount(s[Leading(s, IsSep)..], cur, cur', false, joins);
      }
    }
  }

  lemma JoinedCount(s: string, cur: string, joins: string -> bool)
    requires s != "" && !IsSep(s[0])
    ensures |Scan(s, cur, false, IsSep, joins)| == |Scan(s, "", false, IsSep, joins)|
  {
    if cur != "" {
      var k := if OpLen(s) > 0 then OpLen(s) else 1;
      SameCount(s[k..], cur + s[..k], "" + s[..k], OpLen(s) > 0, joins);
    }
  }

  // The browser finds at least as many tokens as the server, and the same ones exactly when no
  // operator is broken off.
  ghost predicate Compared(s: string, cur: string, afterOp: bool) {
    var server, browser := Scan(s, cur, afterOp, IsSep, BlankTs), Scan(s, cur, afterOp, IsSep, Single);
    |server| <= |browser| && (server == browser <==> !BreaksRange(s, cur != "", afterOp))
  }

  lemma {:induction false} ScanCompare(s: string, cur: string, afterOp: bool)
    ensures Compared(s, cur, afterOp)
    decreases |s|
  {
    if s != "" {
      if !IsSep(s[0]) {
        var k := if OpLen(s) > 0 then OpLen(s) else 1;
        ScanCompare(s[k..], cur + s[..k], OpLen(s) > 0);
        assert cur + s[..k] != "";
      } else {
        GapCompare(s, cur, afterOp);
      }
    }
  }

  lemma {:induction false} GapCompare(s: string, cur: string, afterOp: bool)
    requires s != "" && IsSep(s[0])
    ensures Compared(s, cur, afterOp)
    decreases |s|, 0
  {
    var g := Leading(s, IsSep);
    var rest := s[g..];
    ScanCompare(rest, "", false);
    if cur != "" && g < |s| && (afterOp || OpLen(rest) > 0) && BlankTs(s[..g]) {
      if Single(s[..g]) {
        ScanCompare(rest, cur, false);
        BreaksAnyway(rest, true);
      } else {
        JoinedCount(rest, cur, BlankTs);
      }
    } else {
      assert !Single(s[..g]) || !(cur != "" && g < |s| && (afterOp || OpLen(rest) > 0));
      PrependSame(cur, Scan(rest, "", false, IsSep, BlankTs), Scan(rest, "", false, IsSep, Single));
    }
  }

  lemma PrependSame(cur: string, a: seq<string>, b: seq<string>)
    ensures [cur] + a == [cur] + b <==> a == b
    ensures [] + a == a && [] + b == b
  {
    assert ([cur] + a)[1..] == a && ([cur] + b)[1..] == b;
  }

  // On text whose blanks both sides know, they read the same tokens exactly when no range operator
  // has two blanks or more, or a line break, between it and what it ranges over.
  lemma TokensAgreeIff(text: string)
    requires Common(text)
    ensures PyTokens(text) == TsTokens(text) <==> !BreaksRange(text, false, false)
  {
    PyTokensCommon(text);
    TsTokensAreScanned(text);
    ScanCompare(text, "", false);
  }

  // ------------------------------------------------------------------ the same verdict

  lemma SpansAgree(token: string)
    ensures TsSpan(token) ==
            var span := PySpan(token).0;
            if span.Some? && span.value.hi - span.value.lo <= SELECTION_MAX_SPAN then span else None
  {
  }

  // The spans of tokens the browser takes, each with what it adds to the server's count: a span's
  // whole size counts, what is new to it stays.
  predicate FitsServer(spans: seq<Span>) {
    forall k :: 0 <= k < |spans| ==>
      |Covered(spans[..k])| + (spans[k].hi - spans[k].lo + 1) <= MAX_SELECTION_SIZE
  }

  // What the server holds: every number of `given`, each once.
  ghost predicate HoldsOnce(numbers: seq<nat>, given: set<nat>) {
    && (forall n :: n in numbers <==> n in given)
    && forall i, j :: 0 <= i < j < |numbers| ==> numbers[i] != numbers[j]
  }

  lemma {:induction false} HeldCount(numbers: seq<nat>, given: set<nat>)
    requires HoldsOnce(numbers, given)
    ensures |numbers| == |given|
  {
    if numbers == [] {
      assert given == {};
    } else {
      var last := numbers[|numbers| - 1];
      var front := numbers[..|numbers| - 1];
      assert numbers == front + [last];
      HeldCount(front, given - {last});
    }
  }

  lemma HoldsOneMore(numbers: seq<nat>, given: set<nat>, n: nat)
    requires HoldsOnce(numbers, given)
    ensures HoldsOnce(if n in numbers then numbers else numbers + [n], given + {n})
  {
  }

  lemma {:induction false} ExtendedHolds(numbers: seq<nat>, given: set<nat>, lo: nat, hi: nat)
    requires HoldsOnce(numbers, given)
    ensures HoldsOnce(Extended(numbers, lo, hi), given + Interval(lo, hi))
    decreases hi + 1 - lo
  {
    if lo <= hi {
      HoldsOneMore(numbers, given, lo);
      ExtendedHolds(if lo in numbers then numbers else numbers + [lo], given + {lo}, lo + 1, hi);
      assert (given + {lo}) + Interval(lo + 1, hi) == given + Interval(lo, hi);
    } else {
      assert given + Interval(lo, hi) == given;
    }
  }

  lemma TakeHolds(p: Parsed, spans: seq<Span>, token: string)
    requires p.errors == [] && HoldsOnce(p.numbers, Covered(spans)) && TsSpan(token).Some?
    ensures var span := TsSpan(token).value;
            var q := PyTake(p, token);
            if |Covered(spans)| + (span.hi - span.lo + 1) <= MAX_SELECTION_SIZE
            then q.errors == [] && HoldsOnce(q.numbers, Covered(spans + [span]))
            else q.errors != []
  {
    var span := TsSpan(token).value;
    SpansAgree(token);
    HeldCount(p.numbers, Covered(spans));
    ExtendedHolds(p.numbers, Covered(spans), span.lo, span.hi);
    CoveredMore(spans, span);
  }

  lemma FitsMore(spans: seq<Span>, more: seq<Span>)
    requires more != []
    ensures FitsServer(spans + more) ==>
              FitsServer(spans) && |Covered(spans)| + (more[0].hi - more[0].lo + 1) <= MAX_SELECTION_SIZE
    ensures (spans + [more[0]]) + more[1..] == spans + more
  {
    var all := spans + more;
    if FitsServer(all) {
      forall k | 0 <= k < |spans|
        ensures |Covered(spans[..k])| + (spans[k].hi - spans[k].lo + 1) <= MAX_SELECTION_SIZE
      {
        assert all[..k] == spans[..k] && all[k] == spans[k];
      }
      assert all[..|spans|] == spans && all[|spans|] == more[0];
    }
  }

  lemma FitsAppend(spans: seq<Span>, s: Span)
    requires FitsServer(spans) && |Covered(spans)| + (s.hi - s.lo + 1) <= MAX_SELECTION_SIZE
    ensures FitsServer(spans + [s])
  {
    var all := spans + [s];
    forall k | 0 <= k < |all| ensures |Covered(all[..k])| + (all[k].hi - all[k].lo + 1) <= MAX_SELECTION_SIZE {
      assert all[..k] == spans[..k];
      if k == |spans| {
        assert spans[..k] == spans;
      }
    }
  }

  // The server takes the rest of the tokens without an error exactly when the browser takes each
  // and they all fit; and then it holds their numbers.
  lemma {:induction false} TakesAllIff(p: Parsed, spans: seq<Span>, tokens: seq<string>)
    requires p.errors == [] && HoldsOnce(p.numbers, Covered(spans)) && FitsServer(spans)
    ensures var q := PyTakeAll(p, tokens);
            && (q.errors == [] <==> TsInvalid(tokens) == [] && FitsServer(spans + TsRanges(tokens)))
            && (q.errors == [] ==> HoldsOnce(q.numbers, Covered(spans + TsRanges(tokens))))
    decreases |tokens|
  {
    if tokens == [] {
      assert spans + [] == spans;
    } else {
      var token, rest := tokens[0], tokens[1..];
      var q := PyTake(p, token);
      SpansAgree(token);
      if TsSpan(token).None? {
        TakesTooMuch(p, token);
        ErrorsStay(q, rest);
      } else {
        var span := TsSpan(token).value;
        var more := [span] + TsRanges(rest);
        TakeHolds(p, spans, token);
        FitsMore(spans, more);
        assert more[1..] == TsRanges(rest) && TsRanges(tokens) == more;
        if q.errors == [] {
          FitsAppend(spans, span);
          TakesAllIff(q, spans + [span], rest);
        } else {
          ErrorsStay(q, rest);
        }
      }
    }
  }

  // What the browser refuses the server refuses too, whatever it holds.
  lemma TakesTooMuch(p: Parsed, token: string)
    requires TsSpan(token).None?
    ensures PyTake(p, token).errors != []
  {
    SpansAgree(token);
  }

  // Where both read the same tokens, the server accepts exactly what the browser accepts and its
  // limit of 100000 numbers lets through, each range counted whole; and both read the same
  // numbers. A text with no tokens is an error to the server unless it is blank, and empty to the
  // browser.
  lemma VerdictsOnSameTokens(text: string)
    requires PyTokens(text) == TsTokens(text)
    ensures var server, browser := PyParse(text), TsParse(text);
            && (!browser.empty ==>
                  && (server.errors == [] <==> browser.invalid == [] && FitsServer(browser.ranges))
                  && (server.errors == [] ==> forall n :: n in server.numbers <==> n in browser.numbers))
            && (browser.empty ==> browser.invalid == [] && (server.errors == [] <==> PyStrip(text) == ""))
  {
    var tokens := PyTokens(text);
    TakesAllIff(Parsed([], []), [], tokens);
    assert [] + TsRanges(tokens) == TsRanges(tokens);
    if tokens != [] {
      SomeNumbers(Parsed([], []), tokens);
    }
  }

  // Tokens leave the server with a number or an error.
  lemma SomeNumbers(p: Parsed, tokens: seq<string>)
    requires p.numbers == [] && p.errors == [] && tokens != []
    ensures var q := PyTakeAll(p, tokens); q.numbers != [] || q.errors != []
  {
    var q := PyTake(p, tokens[0]);
    if q.errors != [] {
      ErrorsStay(q, tokens[1..]);
    } else {
      var span := PySpan(tokens[0]).0.value;
      ExtendedHolds([], {}, span.lo, span.hi);
      assert span.lo in q.numbers;
      NumbersStay(q, tokens[1..]);
    }
  }

  lemma {:induction false} NumbersStay(p: Parsed, tokens: seq<string>)
    requires p.numbers != []
    ensures PyTakeAll(p, tokens).numbers != []
    decreases |tokens|
  {
    if tokens != [] {
      var span := PySpan(tokens[0]).0;
      if span.Some? {
        ExtendedLonger(p.numbers, span.value.lo, span.value.hi);
      }
      NumbersStay(PyTake(p, tokens[0]), tokens[1..]);
    }
  }

  lemma {:induction false} ExtendedLonger(numbers: seq<nat>, lo: nat, hi: nat)
    ensures |Extended(numbers, lo, hi)| >= |numbers|
    decreases hi + 1 - lo
  {
    if lo <= hi {
      ExtendedLonger(if lo in numbers then numbers else numbers + [lo], lo + 1, hi);
    }
  }

  // ------------------------------------------------------------------ verdicts on other tokens

  // A token that does not start and end with a digit has no span.
  predicate Ragged(token: string) {
    token != "" && !(IsDigit(token[0]) && IsDigit(token[|token| - 1]))
  }

  lemma RaggedRefused(token: string)
    requires Ragged(token)
    ensures TsSpan(token).None?
  {
    var n := Leading(token, IsDigit);
    var right := token[n + OpLen(token[n..])..];
    if right != "" {
      assert right[|right| - 1] == token[|token| - 1];
    }
  }

  ghost predicate HasRagged(tokens: seq<string>) {
    exists i :: 0 <= i < |tokens| && Ragged(tokens[i])
  }

  lemma RaggedFirst(token: string, rest: seq<string>)
    requires Ragged(token) || HasRagged(rest)
    ensures HasRagged([token] + rest)
  {
    if Ragged(token) {
      assert ([token] + rest)[0] == token;
    } else {
      var i :| 0 <= i < |rest| && Ragged(rest[i]);
      assert ([token] + rest)[i + 1] == rest[i];
    }
  }

  lemma {:induction false} RaggedInvalid(tokens: seq<string>)
    requires HasRagged(tokens)
    ensures TsInvalid(tokens) != []
  {
    var i :| 0 <= i < |tokens| && Ragged(tokens[i]);
    if i == 0 {
      RaggedRefused(tokens[0]);
    } else {
      assert tokens[1..][i - 1] == tokens[i];
      RaggedInvalid(tokens[1..]);
    }
  }

  // A token keeps the character it began with.
  lemma {:induction false} ScanBegins(s: string, cur: string, afterOp: bool)
    requires cur != ""
    ensures var tokens := Scan(s, cur, afterOp, IsSep, Single);
            tokens != [] && tokens[0] != "" && tokens[0][0] == cur[0]
    decreases |s|
  {
    if s != "" {
      if !IsSep(s[0]) {
        ScanBegins(s[if OpLen(s) > 0 then OpLen(s) else 1..],
                   cur + s[..if OpLen(s) > 0 then OpLen(s) else 1], OpLen(s) > 0);
      } else {
        ScanBegins(s[Leading(s, IsSep)..], cur, false);
      }
    }
  }

  // A token read from an operator on begins with it.
  lemma OperatorBegins(s: string)
    requires OpLen(s) > 0 && !IsSep(s[0])
    ensures HasRagged(Scan(s, "", false, IsSep, Single))
  {
    var k := OpLen(s);
    ScanBegins(s[k..], "" + s[..k], true);
    var tokens := Scan(s, "", false, IsSep, Single);
    assert tokens[0][0] == s[0];
    assert Ragged(tokens[0]);
  }

  // A browser token broken off at an operator starts or ends with it.
  lemma {:induction false} BreaksAreRagged(s: string, cur: string, afterOp: bool)
    requires afterOp ==> Ragged(cur)
    requires BreaksRange(s, cur != "", afterOp)
    ensures HasRagged(Scan(s, cur, afterOp, IsSep, Single))
    decreases |s|
  {
    if !IsSep(s[0]) {
      var k := if OpLen(s) > 0 then OpLen(s) else 1;
      var longer := cur + s[..k];
      assert OpLen(s) > 0 ==> longer[|longer| - 1] == s[k - 1];
      BreaksAreRagged(s[k..], longer, OpLen(s) > 0);
    } else {
      GapsAreRagged(s, cur, afterOp);
    }
  }

  lemma {:induction false} GapsAreRagged(s: string, cur: string, afterOp: bool)
    requires afterOp ==> Ragged(cur)
    requires s != "" && IsSep(s[0]) && BreaksRange(s, cur != "", afterOp)
    ensures HasRagged(Scan(s, cur, afterOp, IsSep, Single))
    decreases |s|, 0
  {
    var g := Leading(s, IsSep);
    var rest := s[g..];
    var beside := cur != "" && g < |s| && (afterOp || OpLen(rest) > 0);
    if beside && Single(s[..g]) {
      BreaksAnyway(rest, true);
      BreaksAreRagged(rest, cur, false);
    } else {
      if beside && BlankTs(s[..g]) {
        if !afterOp {
          OperatorBegins(rest);
        }
      } else {
        BreaksAreRagged(rest, "", false);
      }
      var later := Scan(rest, "", false, IsSep, Single);
      if cur == "" {
        assert [] + later == later;
      } else {
        RaggedFirst(cur, later);
      }
    }
  }

  // Where an operator is broken off the browser refuses a token.
  lemma BreaksAreRefused(text: string)
    requires BreaksRange(text, false, false)
    ensures TsParse(text).invalid != []
  {
    BreaksAreRagged(text, "", false);
    TsTokensAreScanned(text);
    RaggedInvalid(TsTokens(text));
  }

  // On any text whose blanks both sides know, what one side's verdict leaves open of the other's:
  // what the browser accepts the server accepts exactly when its limit lets it through, and with
  // the same numbers; what the server accepts the browser accepts exactly when no range operator
  // is broken off. A text with no tokens is an error to the server unless it is blank.
  lemma VerdictsAgreeIff(text: string)
    requires Common(text)
    ensures var server, browser := PyParse(text), TsParse(text);
            && (!browser.empty && browser.invalid == [] ==>
                  && (server.errors == [] <==> FitsServer(browser.ranges))
                  && (server.errors == [] ==> forall n :: n in server.numbers <==> n in browser.numbers))
            && (!browser.empty && server.errors == [] ==>
                  (browser.invalid == [] <==> !BreaksRange(text, false, false)))
            && (browser.empty ==> browser.invalid == [] && (server.errors == [] <==> PyStrip(text) == ""))
  {
    TokensAgreeIff(text);
    if BreaksRange(text, false, false) {
      BreaksAreRefused(text);
      assert !TsParse(text).empty;
    } else {
      VerdictsOnSameTokens(text);
    }
  }

  // So the two verdicts are the same exactly when neither is so: the server accepts a broken-off
  // range, or the browser accepts what is over the server's limit.
  lemma VerdictsDifferIff(text: string)
    requires Common(text) && !TsParse(text).empty
    ensures var server, browser := PyParse(text), TsParse(text);
            (server.errors == [] <==> browser.invalid == []) <==>
            && !(server.errors == [] && BreaksRange(text, false, false))
            && !(browser.invalid == [] && !FitsServer(browser.ranges))
  {
    VerdictsAgreeIff(text);
  }

  // One range of 100001 numbers is within the browser's limit and over the server's.
  lemma LimitsDisagree(text: string)
    requires text == Print([Span(1, 100_001)])
    ensures TsParse(text).invalid == [] && PyParse(text).errors != []
  {
    var spans := [Span(1, 100_001)];
    assert spans[1..] == [];
    ExtendedAbove([], 1, 100_001);
    assert |Expand(spans)| == 100_001;
    PythonReadsThePrint(spans);
    TypeScriptReadsThePrint(spans);
    assert Short(spans[0]);
  }
}
