/**
 Both selection parsers read their tokens as one pass over the text does; they differ only in which
 gaps beside a range operator they bridge (src/copycast/domain/selection.py:14-40,
 web/src/lib/selection.ts:29-77).
 */
module SelectionScan {
  import opened Basics
  import opened Decimal
  import opened SelectionText
  import opened SelectionRoundTrip

  // ------------------------------------------------------------------ one pass

  // The tokens of `s` after `cur`, the start of a token already read; `afterOp` when that ends with
  // a range operator. A gap beside an operator that `joins` accepts ends no token.
  function Scan(s: string, cur: string, afterOp: bool, sep: char -> bool, joins: string -> bool): seq<string>
    decreases |s|
  {
    if s == "" then (if cur == "" then [] else [cur])
    else if !sep(s[0]) then
      var k := if OpLen(s) > 0 then OpLen(s) else 1;
      Scan(s[k..], cur + s[..k], OpLen(s) > 0, sep, joins)
    else
      var g := Leading(s, sep);
      if cur != "" && g < |s| && (afterOp || OpLen(s[g..]) > 0) && joins(s[..g])
      then Scan(s[g..], cur, false, sep, joins)
      else (if cur == "" then [] else [cur]) + Scan(s[g..], "", false, sep, joins)
  }

  predicate AllOf(s: string, p: char -> bool) {
    forall i :: 0 <= i < |s| ==> p(s[i])
  }

  predicate NoneOf(s: string, p: char -> bool) {
    forall i :: 0 <= i < |s| ==> !p(s[i])
  }

  // A separator is no character of an operator, and every blank is one.
  ghost predicate Separates(sep: char -> bool, space: char -> bool) {
    && !sep('-') && !sep('\U{2013}') && !sep('.')
    && forall c :: space(c) ==> sep(c)
  }

  // ------------------------------------------------------------------ tightening, piece by piece

  lemma Assoc(a: string, b: string, c: string)
    ensures a + (b + c) == a + b + c
  {
  }

  lemma DropFirst(s: string, n: nat)
    requires 0 < n <= |s|
    ensures [s[0]] + s[1..][..n - 1] == s[..n] && s[1..][n - 1..] == s[n..]
  {
  }

  lemma DropTwice(s: string, n: nat, g: nat)
    requires n <= g <= |s|
    ensures s[n..][g - n..] == s[g..] && s[n..][..g - n] == s[n..g] && s[..n] + s[n..][..g - n] == s[..g]
  {
  }

  lemma LeadingIs(s: string, p: char -> bool, n: nat)
    requires n <= |s| && (forall i :: 0 <= i < n ==> p(s[i])) && (n < |s| ==> !p(s[n]))
    ensures Leading(s, p) == n
  {
  }

  // What is left of a gap is a gap.
  lemma LeadingLater(s: string, p: char -> bool, n: nat)
    requires n <= Leading(s, p)
    ensures Leading(s[n..], p) == Leading(s, p) - n
  {
    var m := Leading(s, p);
    forall i | 0 <= i < m - n ensures p(s[n..][i]) {
      assert s[n..][i] == s[n + i];
    }
    LeadingIs(s[n..], p, m - n);
  }

  lemma LeadingAllOf(s: string, p: char -> bool)
    ensures AllOf(s[..Leading(s, p)], p)
  {
  }

  lemma TightOperator(s: string, space: char -> bool)
    requires OpLen(s) > 0 && !space(s[0])
    ensures TightenOps(s, space) == s[..OpLen(s)] + TightenOps(Skip(s[OpLen(s)..], space), space)
  {
    assert Leading(s, space) == 0 && Skip(s, space) == s;
  }

  lemma TightCharacter(s: string, space: char -> bool)
    requires s != "" && OpLen(s) == 0 && !space(s[0])
    ensures TightenOps(s, space) == [s[0]] + TightenOps(s[1..], space)
  {
    assert Leading(s, space) == 0 && Skip(s, space) == s;
  }

  lemma TightStarts(s: string, space: char -> bool)
    requires s != "" && !space(s[0])
    ensures TightenOps(s, space) != "" && TightenOps(s, space)[0] == s[0]
  {
    if OpLen(s) > 0 {
      TightOperator(s, space);
    } else {
      TightCharacter(s, space);
    }
  }

  // Blanks go before an operator and stay before anything else.
  lemma BlanksBeforeOp(s: string, space: char -> bool, n: nat)
    requires n == Leading(s, space) && n < |s| && OpLen(s[n..]) > 0
    ensures TightenOps(s, space) == TightenOps(s[n..], space)
  {
    TightOperator(s[n..], space);
  }

  lemma BlankStays(s: string, space: char -> bool)
    requires s != "" && OpLen(Skip(s, space)) == 0
    ensures TightenOps(s, space) == [s[0]] + TightenOps(s[1..], space)
  {
  }

  lemma {:induction false} BlanksStay(s: string, space: char -> bool, n: nat)
    requires n == Leading(s, space) && (n < |s| ==> OpLen(s[n..]) == 0)
    ensures TightenOps(s, space) == s[..n] + TightenOps(s[n..], space)
    decreases |s|
  {
    if n == 0 {
      assert s[0..] == s && s[..0] == "";
      Assoc("", "", TightenOps(s, space));
    } else {
      DropFirst(s, n);
      LeadingLater(s, space, 1);
      BlanksStay(s[1..], space, n - 1);
      BlankStays(s, space);
      Assoc([s[0]], s[1..][..n - 1], TightenOps(s[n..], space));
    }
  }

  // What tightening leaves of a gap: nothing when it is blank and an operator follows, else
  // separators only.
  ghost predicate Keeps(s: string, space: char -> bool, sep: char -> bool, g: nat, kept: string)
    requires g <= |s|
  {
    && TightenOps(s, space) == kept + TightenOps(s[g..], space) && AllOf(kept, sep)
    && (kept == "" <==> AllOf(s[..g], space) && g < |s| && OpLen(s[g..]) > 0)
  }

  lemma {:induction false} TightGap(s: string, space: char -> bool, sep: char -> bool, g: nat) returns (kept: string)
    requires Separates(sep, space) && s != "" && sep(s[0]) && g == Leading(s, sep)
    ensures Keeps(s, space, sep, g, kept)
    decreases |s|, 1
  {
    var n := Leading(s, space);
    if n >= g {
      kept := TightBlankGap(s, space, sep, g);
    } else {
      // A comma or semicolon at n.
      var more := TightRest(s, space, sep, g, n);
      BlanksStay(s, space, n) by {
        assert !space(s[n]) && sep(s[n]);
      }
      Assoc(s[..n], more, TightenOps(s[g..], space));
      kept := s[..n] + more;
      assert !AllOf(s[..g], space) by {
        assert !space(s[..g][n]);
      }
      assert AllOf(kept, sep) by {
        assert forall i :: 0 <= i < n ==> sep(s[..n][i]);
      }
    }
  }

  lemma TightBlankGap(s: string, space: char -> bool, sep: char -> bool, g: nat) returns (kept: string)
    requires Separates(sep, space) && s != "" && sep(s[0]) && g == Leading(s, sep) <= Leading(s, space)
    ensures Keeps(s, space, sep, g, kept)
  {
    assert g == Leading(s, space) by {
      if g < |s| {
        assert !sep(s[g]);
      }
    }
    assert AllOf(s[..g], space) && AllOf(s[..g], sep);
    if g < |s| && OpLen(s[g..]) > 0 {
      BlanksBeforeOp(s, space, g);
      kept := "";
      assert "" + TightenOps(s[g..], space) == TightenOps(s[g..], space);
    } else {
      BlanksStay(s, space, g);
      kept := s[..g];
    }
  }

  // From the comma or semicolon at n on.
  lemma {:induction false} TightRest(s: string, space: char -> bool, sep: char -> bool, g: nat, n: nat)
    returns (more: string)
    requires Separates(sep, space) && g == Leading(s, sep) && n < g && !space(s[n])
    ensures TightenOps(s[n..], space) == more + TightenOps(s[g..], space) && more != "" && AllOf(more, sep)
    decreases |s| - n, 0
  {
    var after := "";
    if n + 1 < g {
      after := TightTail(s, space, sep, g, n + 1);
    }
    assert TightenOps(s[n + 1..], space) == after + TightenOps(s[g..], space);
    SeparatorStays(s, space, sep, n);
    Prepend(s[n], after, TightenOps(s[n + 1..], space), TightenOps(s[g..], space), sep);
    more := [s[n]] + after;
  }

  lemma {:induction false} TightTail(s: string, space: char -> bool, sep: char -> bool, g: nat, n: nat)
    returns (more: string)
    requires Separates(sep, space) && g == Leading(s, sep) && 0 < n < g
    ensures TightenOps(s[n..], space) == more + TightenOps(s[g..], space) && AllOf(more, sep)
    decreases |s| - n, 2
  {
    LaterGap(s, sep, n, g);
    more := TightGap(s[n..], space, sep, g - n);
  }

  lemma LaterGap(s: string, sep: char -> bool, n: nat, g: nat)
    requires g == Leading(s, sep) && n < g
    ensures s[n..] != "" && sep(s[n..][0]) && Leading(s[n..], sep) == g - n && s[n..][g - n..] == s[g..]
  {
    LeadingLater(s, sep, n);
    DropTwice(s, n, g);
    assert s[n..][0] == s[n];
  }

  lemma Prepend(c: char, kept: string, tight: string, rest: string, sep: char -> bool)
    requires tight == kept + rest && sep(c) && AllOf(kept, sep)
    ensures [c] + tight == ([c] + kept) + rest && AllOf([c] + kept, sep) && [c] + kept != ""
  {
  }

  lemma SeparatorStays(s: string, space: char -> bool, sep: char -> bool, n: nat)
    requires Separates(sep, space) && n < |s| && sep(s[n]) && !space(s[n])
    ensures TightenOps(s[n..], space) == [s[n]] + TightenOps(s[n + 1..], space)
  {
    var rest := s[n..];
    assert rest[0] == s[n] && OpLen(rest) == 0 && rest[1..] == s[n + 1..];
    TightCharacter(rest, space);
  }

  // ------------------------------------------------------------------ words of the tightened text

  lemma WordsSkip(gap: string, rest: string, sep: char -> bool)
    requires AllOf(gap, sep) && (rest == "" || !sep(rest[0]))
    ensures Words(gap + rest, sep) == Words(rest, sep)
  {
    LeadingAll(gap, rest, sep);
    LeadingAll("", rest, sep);
    assert "" + rest == rest;
    assert Skip(gap + rest, sep) == rest == Skip(rest, sep);
  }

  lemma WordsAfter(cur: string, gap: string, rest: string, sep: char -> bool)
    requires NoneOf(cur, sep) && AllOf(gap, sep) && (rest == "" || !sep(rest[0])) && (gap == "" ==> rest == "")
    ensures Words(cur + gap + rest, sep) == (if cur == "" then [] else [cur]) + Words(rest, sep)
  {
    if cur == "" {
      assert cur + gap == gap;
      WordsSkip(gap, rest, sep);
    } else {
      WordsStep(cur, gap, rest, sep);
    }
  }

  // The blanks next to an operator, and they alone, end no token.
  ghost predicate JoinsBlanks(joins: string -> bool, space: char -> bool) {
    forall g :: joins(g) <==> AllOf(g, space)
  }

  lemma {:induction false} ScanIsWords(
    s: string, cur: string, space: char -> bool, sep: char -> bool, joins: string -> bool)
    requires Separates(sep, space) && NoneOf(cur, sep) && JoinsBlanks(joins, space)
    ensures Words(cur + TightenOps(s, space), sep) == Scan(s, cur, false, sep, joins)
    decreases |s|, 1
  {
    if s == "" {
      WordsAfter(cur, "", "", sep);
      assert cur + "" + "" == cur + TightenOps(s, space) && Words("", sep) == [];
    } else if sep(s[0]) {
      ScanGap(s, cur, space, sep, joins);
    } else if OpLen(s) > 0 {
      ScanOperator(s, cur, space, sep, joins);
    } else {
      ScanCharacter(s, cur, space, sep, joins);
    }
  }

  lemma Longer(cur: string, piece: string, sep: char -> bool)
    requires NoneOf(cur, sep) && NoneOf(piece, sep)
    ensures NoneOf(cur + piece, sep)
  {
  }

  lemma {:induction false} ScanOperator(
    s: string, cur: string, space: char -> bool, sep: char -> bool, joins: string -> bool)
    requires Separates(sep, space) && NoneOf(cur, sep) && JoinsBlanks(joins, space) && OpLen(s) > 0
    ensures Words(cur + TightenOps(s, space), sep) == Scan(s, cur, false, sep, joins)
    decreases |s|, 0
  {
    var k := OpLen(s);
    TightOperator(s, space);
    Assoc(cur, s[..k], TightenOps(Skip(s[k..], space), space));
    Longer(cur, s[..k], sep);
    ScanAfterOp(s[k..], cur + s[..k], space, sep, joins);
  }

  lemma {:induction false} ScanCharacter(
    s: string, cur: string, space: char -> bool, sep: char -> bool, joins: string -> bool)
    requires Separates(sep, space) && NoneOf(cur, sep) && JoinsBlanks(joins, space)
    requires s != "" && !sep(s[0]) && OpLen(s) == 0
    ensures Words(cur + TightenOps(s, space), sep) == Scan(s, cur, false, sep, joins)
    decreases |s|, 0
  {
    TightCharacter(s, space);
    assert s[..1] == [s[0]];
    Assoc(cur, s[..1], TightenOps(s[1..], space));
    Longer(cur, s[..1], sep);
    ScanIsWords(s[1..], cur + s[..1], space, sep, joins);
  }

  lemma {:induction false} ScanGap(
    s: string, cur: string, space: char -> bool, sep: char -> bool, joins: string -> bool)
    requires Separates(sep, space) && NoneOf(cur, sep) && JoinsBlanks(joins, space)
    requires s != "" && sep(s[0])
    ensures Words(cur + TightenOps(s, space), sep) == Scan(s, cur, false, sep, joins)
    decreases |s|, 0
  {
    var g := Leading(s, sep);
    var kept := TightGap(s, space, sep, g);
    var after := TightenOps(s[g..], space);
    if kept == "" {
      assert kept + after == after;
      ScanIsWords(s[g..], cur, space, sep, joins);
      assert cur == "" ==> [] + Scan(s[g..], "", false, sep, joins) == Scan(s[g..], "", false, sep, joins);
    } else {
      KeptGap(s, cur, space, sep, g, kept);
      ScanIsWords(s[g..], "", space, sep, joins);
      assert "" + after == after;
    }
  }

  // What stays of a gap ends the token before it.
  lemma KeptGap(s: string, cur: string, space: char -> bool, sep: char -> bool, g: nat, kept: string)
    requires Separates(sep, space) && NoneOf(cur, sep) && g == Leading(s, sep)
    requires kept != "" && AllOf(kept, sep)
    ensures Words(cur + (kept + TightenOps(s[g..], space)), sep) ==
            (if cur == "" then [] else [cur]) + Words(TightenOps(s[g..], space), sep)
  {
    var after := TightenOps(s[g..], space);
    Assoc(cur, kept, after);
    if g < |s| {
      TightStarts(s[g..], space);
    }
    WordsAfter(cur, kept, after, sep);
  }

  // A gap that ends its token.
  lemma ScanEnds(s: string, cur: string, afterOp: bool, sep: char -> bool, joins: string -> bool, g: nat)
    requires s != "" && sep(s[0]) && g == Leading(s, sep)
    requires cur == "" || g == |s| || !joins(s[..g])
    ensures Scan(s, cur, afterOp, sep, joins) == (if cur == "" then [] else [cur]) + Scan(s[g..], "", false, sep, joins)
  {
  }

  lemma ScanJoins(s: string, cur: string, sep: char -> bool, joins: string -> bool, g: nat)
    requires s != "" && sep(s[0]) && g == Leading(s, sep) && g < |s| && cur != "" && joins(s[..g])
    ensures Scan(s, cur, true, sep, joins) == Scan(s[g..], cur, false, sep, joins)
  {
  }

  // Right after an operator, blanks are skipped.
  lemma {:induction false} ScanAfterOp(
    s: string, cur: string, space: char -> bool, sep: char -> bool, joins: string -> bool)
    requires Separates(sep, space) && cur != "" && NoneOf(cur, sep) && JoinsBlanks(joins, space)
    ensures Words(cur + TightenOps(Skip(s, space), space), sep) == Scan(s, cur, true, sep, joins)
    decreases |s|, 2
  {
    var n := Leading(s, space);
    if s == "" || !sep(s[0]) {
      assert n == 0 && s[0..] == s;
      ScanIsWords(s, cur, space, sep, joins);
      assert Scan(s, cur, true, sep, joins) == Scan(s, cur, false, sep, joins);
    } else {
      SkippedScan(s, cur, space, sep, joins, n);
      ScanIsWords(s[n..], cur, space, sep, joins);
    }
  }

  lemma SkippedScan(s: string, cur: string, space: char -> bool, sep: char -> bool, joins: string -> bool, n: nat)
    requires Separates(sep, space) && cur != "" && JoinsBlanks(joins, space)
    requires s != "" && sep(s[0]) && n == Leading(s, space)
    ensures Scan(s, cur, true, sep, joins) == Scan(s[n..], cur, false, sep, joins)
  {
    var g := Leading(s, sep);
    if n < g {
      SkippedSeparator(s, cur, space, sep, joins, n, g);
    } else {
      assert n == g by {
        if g < |s| {
          assert !sep(s[g]);
        }
      }
      if g < |s| {
        ScanJoins(s, cur, sep, joins, g);
      } else {
        ScanEnds(s, cur, true, sep, joins, g);
        assert s[g..] == "";
      }
    }
  }

  // Blanks, then a comma or semicolon at n.
  lemma SkippedSeparator(
    s: string, cur: string, space: char -> bool, sep: char -> bool, joins: string -> bool, n: nat, g: nat)
    requires cur != "" && JoinsBlanks(joins, space)
    requires s != "" && sep(s[0]) && g == Leading(s, sep) && n < g && !space(s[n])
    ensures Scan(s, cur, true, sep, joins) == Scan(s[n..], cur, false, sep, joins)
  {
    var rest := s[n..];
    assert !joins(s[..g]) by {
      assert !space(s[..g][n]);
    }
    ScanEnds(s, cur, true, sep, joins, g);
    LeadingLater(s, sep, n);
    DropTwice(s, n, g);
    assert rest[0] == s[n];
    assert !joins(rest[..g - n]) by {
      assert !space(rest[..g - n][0]);
    }
    ScanEnds(rest, cur, false, sep, joins, g - n);
  }

  // ------------------------------------------------------------------ ends of the text

  lemma ScanFromGap(s: string, n: nat, sep: char -> bool, joins: string -> bool)
    requires n <= |s| && AllOf(s[..n], sep)
    ensures Scan(s, "", false, sep, joins) == Scan(s[n..], "", false, sep, joins)
  {
    if n == 0 {
      assert s[0..] == s;
    } else {
      var g := Leading(s, sep);
      assert forall i :: 0 <= i < n ==> s[..n][i] == s[i];
      ScanEnds(s, "", false, sep, joins, g);
      LeadingLater(s, sep, n);
      DropTwice(s, n, g);
      if n < g {
        ScanEnds(s[n..], "", false, sep, joins, g - n);
      }
    }
  }

  // An operator does not reach into the separators after it.
  lemma OpLenBefore(s: string, w: string)
    requires s != "" && (w == "" || w[0] != '.')
    ensures OpLen(s + w) == OpLen(s)
  {
    if |s| == 1 && w != "" {
      assert (s + w)[1] == w[0];
    }
  }

  lemma {:induction false} ScanToGap(
    s: string, w: string, cur: string, afterOp: bool, sep: char -> bool, joins: string -> bool)
    requires AllOf(w, sep) && !sep('.')
    ensures Scan(s + w, cur, afterOp, sep, joins) == Scan(s, cur, afterOp, sep, joins)
    decreases |s|
  {
    if s == "" {
      assert s + w == w;
      ScanAllGap(w, cur, afterOp, sep, joins);
    } else if !sep(s[0]) {
      var k := if OpLen(s) > 0 then OpLen(s) else 1;
      OpLenBefore(s, w);
      assert (s + w)[k..] == s[k..] + w && (s + w)[..k] == s[..k];
      ScanToGap(s[k..], w, cur + s[..k], OpLen(s) > 0, sep, joins);
    } else if AllOf(s, sep) {
      ScanAllGap(s + w, cur, afterOp, sep, joins);
      ScanAllGap(s, cur, afterOp, sep, joins);
    } else {
      ScanInnerGap(s, w, cur, afterOp, sep, joins);
    }
  }

  lemma ScanAllGap(w: string, cur: string, afterOp: bool, sep: char -> bool, joins: string -> bool)
    requires AllOf(w, sep)
    ensures Scan(w, cur, afterOp, sep, joins) == if cur == "" then [] else [cur]
  {
    if w != "" {
      LeadingIs(w, sep, |w|);
      ScanEnds(w, cur, afterOp, sep, joins, |w|);
      assert w[|w|..] == "";
    }
  }

  lemma {:induction false} ScanInnerGap(
    s: string, w: string, cur: string, afterOp: bool, sep: char -> bool, joins: string -> bool)
    requires AllOf(w, sep) && !sep('.') && s != "" && sep(s[0]) && !AllOf(s, sep)
    ensures Scan(s + w, cur, afterOp, sep, joins) == Scan(s, cur, afterOp, sep, joins)
    decreases |s|, 0
  {
    var g := Leading(s, sep);
    assert g < |s|;
    assert (s + w)[..g] == s[..g] && (s + w)[g..] == s[g..] + w;
    LeadingIs(s + w, sep, g);
    OpLenBefore(s[g..], w);
    ScanToGap(s[g..], w, cur, false, sep, joins);
    ScanToGap(s[g..], w, "", false, sep, joins);
  }

  // ------------------------------------------------------------------ the server

  predicate Blank(g: string) {
    AllOf(g, PySpace)
  }

  lemma {:induction false} TrailingBlank(s: string)
    ensures AllOf(s[|s| - Trailing(s)..], PySpace)
  {
    if s != "" && PySpace(s[|s| - 1]) {
      var front := s[..|s| - 1];
      TrailingBlank(front);
      var n := Trailing(front);
      assert Trailing(s) == n + 1;
      assert s[|s| - n - 1..] == front[|front| - n..] + [s[|s| - 1]];
    }
  }

  lemma StripScans(text: string, sep: char -> bool, joins: string -> bool)
    requires Separates(sep, PySpace)
    ensures Scan(PyStrip(text), "", false, sep, joins) == Scan(text, "", false, sep, joins)
  {
    var n := Leading(text, PySpace);
    var t := text[n..];
    var m := |t| - Trailing(t);
    ScanFromGap(text, n, sep, joins) by {
      assert AllOf(text[..n], sep);
    }
    assert AllOf(t[m..], sep) by {
      TrailingBlank(t);
    }
    StripTail(t, m, sep, joins);
  }

  lemma StripTail(t: string, m: nat, sep: char -> bool, joins: string -> bool)
    requires m <= |t| && AllOf(t[m..], sep) && !sep('.')
    ensures Scan(t[..m], "", false, sep, joins) == Scan(t, "", false, sep, joins)
  {
    ScanToGap(t[..m], t[m..], "", false, sep, joins);
    assert t == t[..m] + t[m..];
  }

  lemma PyTokensAreScanned(text: string)
    ensures PyTokens(text) == Scan(text, "", false, PySeparator, Blank)
  {
    StripScans(text, PySeparator, Blank);
    ScanIsWords(PyStrip(text), "", PySpace, PySeparator, Blank);
    var tight := TightenOps(PyStrip(text), PySpace);
    assert "" + tight == tight;
  }

  // ------------------------------------------------------------------ the browser

  predicate IsSep(c: char) {
    c == ',' || c == ';' || JsSpace(c)
  }

  predicate BlankTs(g: string) {
    AllOf(g, JsSpace)
  }

  // A single blank that is no line break: what the browser leaves within a chunk.
  predicate Single(g: string) {
    |g| == 1 && JsSpace(g[0]) && g[0] != '\n'
  }

  // The two readings of a gap agree on every run of separators within `s`.
  ghost predicate SameGaps(s: string, sep: char -> bool, joins: string -> bool, joins': string -> bool) {
    forall i, j :: 0 <= i < j <= |s| && AllOf(s[i..j], sep) ==> (joins(s[i..j]) <==> joins'(s[i..j]))
  }

  lemma LaterGaps(s: string, sep: char -> bool, joins: string -> bool, joins': string -> bool, k: nat)
    requires SameGaps(s, sep, joins, joins') && k <= |s|
    ensures SameGaps(s[k..], sep, joins, joins')
  {
    forall i, j | 0 <= i < j <= |s[k..]| && AllOf(s[k..][i..j], sep)
      ensures joins(s[k..][i..j]) <==> joins'(s[k..][i..j])
    {
      assert s[k..][i..j] == s[k + i..k + j];
    }
  }

  ghost predicate SameSeparators(s: string, sep: char -> bool, sep': char -> bool) {
    forall i :: 0 <= i < |s| ==> (sep(s[i]) <==> sep'(s[i]))
  }

  // Separators and gaps that agree on the text give the same tokens.
  lemma {:induction false} ScanSame(
    s: string, cur: string, afterOp: bool, sep: char -> bool, joins: string -> bool,
    sep': char -> bool, joins': string -> bool)
    requires SameSeparators(s, sep, sep') && SameGaps(s, sep, joins, joins')
    ensures Scan(s, cur, afterOp, sep, joins) == Scan(s, cur, afterOp, sep', joins')
    decreases |s|
  {
    if s != "" {
      if !sep(s[0]) {
        var k := if OpLen(s) > 0 then OpLen(s) else 1;
        LaterGaps(s, sep, joins, joins', k);
        ScanSame(s[k..], cur + s[..k], OpLen(s) > 0, sep, joins, sep', joins');
      } else {
        SameGap(s, cur, afterOp, sep, joins, sep', joins');
      }
    }
  }

  lemma {:induction false} SameGap(
    s: string, cur: string, afterOp: bool, sep: char -> bool, joins: string -> bool,
    sep': char -> bool, joins': string -> bool)
    requires SameSeparators(s, sep, sep') && SameGaps(s, sep, joins, joins') && s != "" && sep(s[0])
    ensures Scan(s, cur, afterOp, sep, joins) == Scan(s, cur, afterOp, sep', joins')
    decreases |s|, 0
  {
    var g := Leading(s, sep);
    LeadingIs(s, sep', g);
    assert s[..g] == s[0..g];
    assert AllOf(s[0..g], sep);
    assert joins(s[..g]) <==> joins'(s[..g]);
    LaterGaps(s, sep, joins, joins', g);
    ScanSame(s[g..], cur, false, sep, joins, sep', joins');
    ScanSame(s[g..], "", false, sep, joins, sep', joins');
  }

  // No comma, semicolon or line break, and no two blanks together.
  ghost predicate IsChunk(s: string) {
    && NoneOf(s, JsSeparator)
    && forall i :: 0 < i < |s| ==> !(JsSpace(s[i - 1]) && JsSpace(s[i]))
  }

  lemma ChunkGap(s: string, i: nat, j: nat)
    requires IsChunk(s) && i < j <= |s| && AllOf(s[i..j], JsSpace)
    ensures Single(s[i..j])
  {
    var next := i + 1;
    assert forall k :: i <= k < j ==> s[i..j][k - i] == s[k];
    assert forall k :: 0 < k < |s| && JsSpace(s[k]) ==> !JsSpace(s[k - 1]);
    assert JsSpace(s[i]) && !JsSeparator(s[i]);
    assert forall k :: i <= k < j ==> JsSpace(s[k]);
    assert next < |s| ==> !JsSpace(s[next]);
  }

  lemma ChunkGaps(s: string)
    requires IsChunk(s)
    ensures SameSeparators(s, JsSpace, IsSep) && SameGaps(s, JsSpace, BlankTs, Single)
  {
    forall i, j | 0 <= i < j <= |s| && AllOf(s[i..j], JsSpace) ensures BlankTs(s[i..j]) <==> Single(s[i..j]) {
      ChunkGap(s, i, j);
    }
  }

  // One chunk's tokens.
  lemma ChunkScans(s: string)
    requires IsChunk(s)
    ensures LooseTokens(s) == Scan(s, "", false, IsSep, Single)
  {
    ScanIsWords(s, "", JsSpace, JsSpace, BlankTs);
    assert "" + TightenOps(s, JsSpace) == TightenOps(s, JsSpace);
    ChunkGaps(s);
    ScanSame(s, "", false, JsSpace, BlankTs, IsSep, Single);
  }

  // What splits the text into chunks: two blanks or more, or a comma, semicolon or line break.
  ghost predicate Splits(w: string) {
    w != "" && AllOf(w, IsSep) && (|w| >= 2 || JsSeparator(w[0]))
  }

  lemma NotSingle(a: string, w: string, b: string)
    requires Splits(w)
    ensures !Single(a + w + b)
  {
    if |a + w + b| == 1 {
      assert a + w + b == w;
    }
  }

  // A split ends the tokens before it.
  lemma {:induction false} ScanSplit(s: string, w: string, rest: string, cur: string, afterOp: bool)
    requires Splits(w)
    ensures Scan(s + w + rest, cur, afterOp, IsSep, Single)
         == Scan(s, cur, afterOp, IsSep, Single) + Scan(rest, "", false, IsSep, Single)
    decreases |s|
  {
    var t := s + w + rest;
    if AllOf(s, IsSep) {
      SplitGap(s, w, rest, cur, afterOp);
    } else if !IsSep(s[0]) {
      var k := if OpLen(s) > 0 then OpLen(s) else 1;
      assert t == s + (w + rest);
      OpLenBefore(s, w + rest);
      assert t[k..] == s[k..] + w + rest && t[..k] == s[..k];
      ScanSplit(s[k..], w, rest, cur + s[..k], OpLen(s) > 0);
    } else {
      SplitLater(s, w, rest, cur, afterOp);
    }
  }

  lemma SplitGap(s: string, w: string, rest: string, cur: string, afterOp: bool)
    requires Splits(w) && AllOf(s, IsSep)
    ensures Scan(s + w + rest, cur, afterOp, IsSep, Single)
         == Scan(s, cur, afterOp, IsSep, Single) + Scan(rest, "", false, IsSep, Single)
  {
    var t := s + w + rest;
    var n := Leading(rest, IsSep);
    var g := |s| + |w| + n;
    assert t[..g] == s + w + rest[..n];
    assert forall i :: 0 <= i < g ==> t[i] == t[..g][i];
    LeadingAllOf(rest, IsSep);
    assert g < |t| ==> t[g] == rest[n];
    LeadingIs(t, IsSep, g);
    NotSingle(s, w, rest[..n]);
    ScanEnds(t, cur, afterOp, IsSep, Single, g);
    assert t[g..] == rest[n..];
    ScanFromGap(rest, n, IsSep, Single);
    ScanAllGap(s, cur, afterOp, IsSep, Single);
  }

  lemma {:induction false} SplitLater(s: string, w: string, rest: string, cur: string, afterOp: bool)
    requires Splits(w) && !AllOf(s, IsSep) && IsSep(s[0])
    ensures Scan(s + w + rest, cur, afterOp, IsSep, Single)
         == Scan(s, cur, afterOp, IsSep, Single) + Scan(rest, "", false, IsSep, Single)
    decreases |s|, 0
  {
    var g := Leading(s, IsSep);
    InnerGap(s, w + rest, g);
    Assoc(s, w, rest);
    Assoc(s[g..], w, rest);
    ScanSplit(s[g..], w, rest, cur, false);
    ScanSplit(s[g..], w, rest, "", false);
    SameStart(s, s + w + rest, cur, afterOp, g, Scan(rest, "", false, IsSep, Single));
  }

  // Texts that begin with the same gap, before the same operator if any: what one has more after
  // the gap it has more in all.
  lemma SameStart(s: string, t: string, cur: string, afterOp: bool, g: nat, more: seq<string>)
    requires g == Leading(s, IsSep) == Leading(t, IsSep) && 0 < g < |s| && g < |t|
    requires s[..g] == t[..g] && OpLen(s[g..]) == OpLen(t[g..])
    requires Scan(t[g..], cur, false, IsSep, Single) == Scan(s[g..], cur, false, IsSep, Single) + more
    requires Scan(t[g..], "", false, IsSep, Single) == Scan(s[g..], "", false, IsSep, Single) + more
    ensures Scan(t, cur, afterOp, IsSep, Single) == Scan(s, cur, afterOp, IsSep, Single) + more
  {
    var first := if cur == "" then [] else [cur];
    var part := Scan(s[g..], "", false, IsSep, Single);
    assert (first + part) + more == first + (part + more);
  }

  // What follows a gap with more after it in `s` plays no part in it.
  lemma InnerGap(s: string, tail: string, g: nat)
    requires g == Leading(s, IsSep) < |s| && (tail == "" || tail[0] != '.')
    ensures Leading(s + tail, IsSep) == g && (s + tail)[..g] == s[..g] && (s + tail)[g..] == s[g..] + tail
    ensures OpLen((s + tail)[g..]) == OpLen(s[g..])
  {
    DropAppended(s, tail, g);
    LeadingIs(s + tail, IsSep, g);
    OpLenBefore(s[g..], tail);
  }

  lemma DropAppended(s: string, tail: string, g: nat)
    requires g < |s|
    ensures (s + tail)[..g] == s[..g] && (s + tail)[g..] == s[g..] + tail
    ensures forall i :: 0 <= i <= g ==> (s + tail)[i] == s[i]
  {
  }

  // The chunks' tokens, one after the other, are one scan of the text.
  lemma {:induction false} ChunksScan(s: string, chunk: string)
    requires IsChunk(chunk) && (chunk != "" && s != "" ==> !(JsSpace(chunk[|chunk| - 1]) && JsSpace(s[0])))
    ensures Loose(Chunks(s, chunk)) == Scan(chunk + s, "", false, IsSep, Single)
    decreases |s|
  {
    if s == "" {
      ChunkScans(chunk);
      LooseHead(chunk, []);
      assert chunk + s == chunk && [chunk] + [] == [chunk];
    } else if JsSeparator(s[0]) {
      ChunkEnds(s, chunk, Leading(s, JsSeparator));
    } else if Leading(s, JsSpace) >= 2 {
      ChunkEnds(s, chunk, Leading(s, JsSpace));
    } else {
      assert chunk + s == (chunk + [s[0]]) + s[1..];
      ChunkGrows(s, chunk);
      ChunksScan(s[1..], chunk + [s[0]]);
    }
  }

  lemma ChunkGrows(s: string, chunk: string)
    requires IsChunk(chunk) && s != "" && (chunk != "" ==> !(JsSpace(chunk[|chunk| - 1]) && JsSpace(s[0])))
    requires !JsSeparator(s[0]) && Leading(s, JsSpace) < 2
    ensures IsChunk(chunk + [s[0]]) && (|s| > 1 ==> !(JsSpace(s[0]) && JsSpace(s[1])))
  {
    if |s| > 1 {
      assert s[1..][0] == s[1];
    }
  }

  lemma {:induction false} ChunkEnds(s: string, chunk: string, n: nat)
    requires IsChunk(chunk) && s != ""
    requires n == if JsSeparator(s[0]) then Leading(s, JsSeparator) else Leading(s, JsSpace)
    requires JsSeparator(s[0]) || n >= 2
    ensures Loose(Chunks(s, chunk)) == Scan(chunk + s, "", false, IsSep, Single)
    decreases |s|, 0
  {
    FirstChunk(s, chunk, n);
    ChunkScans(chunk);
    ChunksScan(s[n..], "");
    SplitOff(s, chunk, n);
  }

  lemma SplitOff(s: string, chunk: string, n: nat)
    requires s != "" && n == if JsSeparator(s[0]) then Leading(s, JsSeparator) else Leading(s, JsSpace)
    requires JsSeparator(s[0]) || n >= 2
    ensures Scan(chunk + s, "", false, IsSep, Single)
         == Scan(chunk, "", false, IsSep, Single) + Scan("" + s[n..], "", false, IsSep, Single)
  {
    var w, rest := s[..n], s[n..];
    assert "" + rest == rest && chunk + s == chunk + w + rest;
    assert Splits(w) by {
      assert forall i :: 0 <= i < n ==> w[i] == s[i];
    }
    ScanSplit(chunk, w, rest, "", false);
  }

  lemma FirstChunk(s: string, chunk: string, n: nat)
    requires s != "" && n == if JsSeparator(s[0]) then Leading(s, JsSeparator) else Leading(s, JsSpace)
    requires JsSeparator(s[0]) || n >= 2
    ensures Loose(Chunks(s, chunk)) == LooseTokens(chunk) + Loose(Chunks(s[n..], ""))
  {
    LooseHead(chunk, Chunks(s[n..], ""));
  }

  lemma TsTokensAreScanned(text: string)
    ensures TsTokens(text) == Scan(text, "", false, IsSep, Single)
  {
    ChunksScan(text, "");
    assert "" + text == text;
  }
}
