/**
 Time-based one-time passwords (src/copycast/domain/totp.py; RFC 6238 over RFC 4226). The HMAC is
 a parameter: what it gives for each counter, under one key.
 */
module Totp {
  import opened Basics
  import opened Decimal

  const STEP_SECONDS := 30.0
  const DIGITS := 6
  const WINDOW := 1

  type Byte = b: int | 0 <= b < 256

  type Mac = nat -> seq<Byte>

  // HMAC-SHA1 gives 20 bytes (section 5.2 of RFC 4226).
  ghost predicate IsSha1(mac: Mac) {
    forall c :: |mac(c)| == 20
  }

  function Zfill(s: string, width: nat): string
    decreases width - |s|
  {
    if |s| >= width then s else Zfill("0" + s, width)
  }

  // Dynamic truncation (section 5.3 of RFC 4226): 31 bits at the offset the last byte names.
  function Truncated(digest: seq<Byte>): (code: nat)
    requires |digest| == 20
    ensures code < 0x8000_0000
  {
    var offset: int := digest[19] % 16;
    var a: int, b: int, c: int, d: int :=
      digest[offset], digest[offset + 1], digest[offset + 2], digest[offset + 3];
    (((a * 256 + b) * 256 + c) * 256 + d) % 0x8000_0000
  }

  function Hotp(mac: Mac, counter: nat): string
    requires |mac(counter)| == 20
  {
    Zfill(Dec(Truncated(mac(counter)) % 1_000_000), DIGITS)
  }

  function StepAt(now: real): int {
    (now / STEP_SECONDS).Floor
  }

  function Max(a: int, b: int): int {
    if a < b then b else a
  }

  function Typed(code: string): string {
    if code == "" then "" else (if PySpace(code[0]) then "" else [code[0]]) + Typed(code[1..])
  }

  // A step whose code was typed and that was not used before.
  predicate Accepts(mac: Mac, code: string, now: real, last: Option<int>, step: int)
    requires step >= 0 ==> |mac(step)| == 20
  {
    && step >= 0
    && StepAt(now) - WINDOW <= step <= StepAt(now) + WINDOW
    && Hotp(mac, step) == Typed(code)
    && (last.None? || step > last.value)
  }

  lemma {:induction false} ZfillDigits(s: string, width: nat)
    requires AllDigits(s) && |s| <= width
    ensures |Zfill(s, width)| == width && AllDigits(Zfill(s, width)) && Value(Zfill(s, width)) == Value(s)
    decreases width - |s|
  {
    if |s| < width {
      ValueOfPadded(s);
      ZfillDigits("0" + s, width);
    }
  }

  lemma {:induction false} ValueOfPadded(s: string)
    requires AllDigits(s)
    ensures AllDigits("0" + s) && Value("0" + s) == Value(s)
  {
    var t := "0" + s;
    if s != "" {
      ValueOfPadded(s[..|s| - 1]);
      assert t[..|t| - 1] == "0" + s[..|s| - 1];
    } else {
      assert t[..0] == "";
    }
  }

  lemma {:induction false} DecLength(n: nat, k: nat)
    requires n < Pow10(k) && k > 0
    ensures |Dec(n)| <= k
  {
    assert Pow10(k) == 10 * Pow10(k - 1);
    if n >= 10 {
      assert n / 10 < Pow10(k - 1);
      DecLength(n / 10, k - 1);
    }
  }

  function Pow10(k: nat): nat {
    if k == 0 then 1 else 10 * Pow10(k - 1)
  }

  // Every code is exactly six digits and spells the truncated digest modulo a million.
  lemma HotpIsSixDigits(mac: Mac, counter: nat)
    requires |mac(counter)| == 20
    ensures var code := Hotp(mac, counter);
            && |code| == DIGITS && AllDigits(code)
            && Value(code) == Truncated(mac(counter)) % 1_000_000
  {
    var n := Truncated(mac(counter)) % 1_000_000;
    assert Pow10(6) == 1_000_000 by {
      assert Pow10(3) == 1000;
      assert Pow10(6) == 10 * (10 * (10 * Pow10(3)));
    }
    DecLength(n, 6);
    ZfillDigits(Dec(n), DIGITS);
    ValueOfDec(n);
  }

  // The four bytes at the offset, most significant first, without the top bit.
  lemma TruncatedIsBigEndian(digest: seq<Byte>)
    requires |digest| == 20
    ensures var at: int := digest[19] % 16;
            var a: int, b: int, c: int, d: int := digest[at], digest[at + 1], digest[at + 2], digest[at + 3];
            Truncated(digest) == a % 128 * 0x1_000000 + b * 0x1_0000 + c * 0x1_00 + d
  {
    var at: int := digest[19] % 16;
    BigEndian(digest[at], digest[at + 1], digest[at + 2], digest[at + 3]);
  }

  lemma BigEndian(a: int, b: int, c: int, d: int)
    requires 0 <= a < 256 && 0 <= b < 256 && 0 <= c < 256 && 0 <= d < 256
    ensures var code := (((a * 256 + b) * 256 + c) * 256 + d) % 0x8000_0000;
            code == a % 128 * 0x1_000000 + b * 0x1_0000 + c * 0x1_00 + d
  {
    var low: int := a % 128 * 16777216 + b * 65536 + c * 256 + d;
    assert (((a * 256 + b) * 256 + c) * 256 + d) == a / 128 * 0x8000_0000 + low;
    assert 0 <= low < 0x8000_0000;
  }

  // The example of section 5.4 of RFC 4226.
  lemma RfcExample(mac: Mac, counter: nat)
    requires mac(counter) == [
      0x1f, 0x86, 0x98, 0x69, 0x0e, 0x02, 0xca, 0x16, 0x61, 0x85,
      0x50, 0xef, 0x7f, 0x19, 0xda, 0x8e, 0x94, 0x5b, 0x55, 0x5a]
    ensures Truncated(mac(counter)) == 0x50ef7f19
    ensures Hotp(mac, counter) == "872921"
  {
    HotpIsSixDigits(mac, counter);
    assert Truncated(mac(counter)) == 0x50ef7f19;
    ExampleCode();
    SixDigits("872921", Hotp(mac, counter));
  }

  lemma ExampleCode()
    ensures |"872921"| == 6 && AllDigits("872921") && Value("872921") == 872921
  {
    OneMoreDigit("", '8', "8");
    OneMoreDigit("8", '7', "87");
    OneMoreDigit("87", '2', "872");
    OneMoreDigit("872", '9', "8729");
    OneMoreDigit("8729", '2', "87292");
    OneMoreDigit("87292", '1', "872921");
  }

  lemma OneMoreDigit(s: string, d: char, t: string)
    requires AllDigits(s) && IsDigit(d) && t == s + [d]
    ensures AllDigits(t) && Value(t) == 10 * Value(s) + (d as int - '0' as int)
  {
    assert t[..|s|] == s;
  }

  // Two codes of six digits that spell the same number are the same.
  lemma SixDigits(a: string, b: string)
    requires |a| == |b| == 6 && AllDigits(a) && AllDigits(b) && Value(a) == Value(b)
    ensures a == b
  {
    SameNumeral(a, b);
  }

  lemma {:induction false} SameNumeral(a: string, b: string)
    requires |a| == |b| && AllDigits(a) && AllDigits(b) && Value(a) == Value(b)
    ensures a == b
  {
    if a != "" {
      var x, y := a[..|a| - 1], b[..|b| - 1];
      SameNumeral(x, y);
      assert a == x + [a[|a| - 1]] && b == y + [b[|b| - 1]];
    }
  }

  // Step n is the half minute from 30 n seconds on.
  lemma StepIs(now: real, n: int)
    ensures StepAt(now) == n <==> 30.0 * n as real <= now < 30.0 * (n + 1) as real
  {
  }

  lemma {:induction false} TypedJoins(a: string, b: string)
    ensures Typed(a + b) == Typed(a) + Typed(b)
  {
    if a == "" {
      assert a + b == b;
    } else {
      assert (a + b)[1..] == a[1..] + b;
      TypedJoins(a[1..], b);
    }
  }

  lemma {:induction false} TypedKeeps(a: string)
    ensures (forall i :: 0 <= i < |a| ==> !PySpace(a[i])) ==> Typed(a) == a
    ensures (forall i :: 0 <= i < |a| ==> PySpace(a[i])) ==> Typed(a) == ""
  {
    if a != "" {
      TypedKeeps(a[1..]);
    }
  }

  // Whitespace in a typed code does not count: before it, after it or in the middle of it.
  lemma SpacesDoNotCount(before: string, a: string, gap: string, b: string, after: string)
    requires forall c :: c in before + gap + after ==> PySpace(c)
    requires forall c :: c in a + b ==> !PySpace(c)
    ensures Typed(before + a + gap + b + after) == a + b
  {
    TypedJoins(before + a + gap + b, after);
    TypedJoins(before + a + gap, b);
    TypedJoins(before + a, gap);
    TypedJoins(before, a);
    TypedKeeps(before);
    TypedKeeps(a);
    TypedKeeps(gap);
    TypedKeeps(b);
    TypedKeeps(after);
  }

  // A code is good for the half minute it is of, the one before and the one after, once: exactly
  // for a step later than the last one used.
  lemma GoodForThreeSteps(mac: Mac, code: string, now: real, last: Option<int>, step: nat)
    requires |mac(step)| == 20
    ensures Accepts(mac, code, now, last, step) <==>
            && 30.0 * (step - 1) as real <= now < 30.0 * (step + 2) as real
            && Typed(code) == Hotp(mac, step)
            && (last.Some? ==> last.value < step)
  {
    StepIs(now, StepAt(now));
    assert StepAt(now) - 1 <= step <= StepAt(now) + 1 <==>
           StepAt(now) == step - 1 || StepAt(now) == step || StepAt(now) == step + 1;
    StepIs(now, step - 1);
    StepIs(now, step);
    StepIs(now, step + 1);
  }

  // `match_step` with its loop over the window: the latest step that accepts the code, if any.
  method MatchStep(mac: Mac, code: string, now: real, last: Option<int>) returns (matched: Option<int>)
    requires forall c :: |mac(c)| == 20
    ensures matched.Some? ==> Accepts(mac, code, now, last, matched.value)
    ensures matched.Some? ==> forall s :: s > matched.value ==> !Accepts(mac, code, now, last, s)
    ensures matched.None? ==> forall s :: !Accepts(mac, code, now, last, s)
  {
    var typed := Typed(code);
    if |typed| != DIGITS || !AllDigits(typed) {
      forall s | s >= 0 ensures !Accepts(mac, code, now, last, s) {
        HotpIsSixDigits(mac, s);
      }
      return None;
    }
    var current := StepAt(now);
    matched := None;
    var step := current - WINDOW;
    while step < current + WINDOW + 1
      invariant current - WINDOW <= step <= current + WINDOW + 1
      invariant matched.Some? ==> Accepts(mac, code, now, last, matched.value) && matched.value < step
      invariant matched.Some? ==> forall s :: matched.value < s < step ==> !Accepts(mac, code, now, last, s)
      invariant matched.None? ==> forall s :: s < step ==> !Accepts(mac, code, now, last, s)
    {
      if step >= 0 && Hotp(mac, step) == typed && (last.None? || step > last.value) {
        matched := if matched.None? then Some(step) else Some(Max(matched.value, step));
      }
      step := step + 1;
    }
  }

  // ------------------------------------------------------------------ a User's sign-ins

  // One sign-in attempt and what `match_step` answered it.
  datatype Attempt = Attempt(code: string, now: real, answer: Option<int>)

  // The attempts of one User in order: each is answered against the last step stored, and an
  // accepted step is stored.
  ghost predicate SignIns(mac: Mac, last: Option<int>, attempts: seq<Attempt>)
    requires IsSha1(mac)
    decreases |attempts|
  {
    attempts == [] ||
    (var a := attempts[0];
     && (a.answer.Some? ==> Accepts(mac, a.code, a.now, last, a.answer.value))
     && (a.answer.None? ==> forall s :: !Accepts(mac, a.code, a.now, last, s))
     && SignIns(mac, if a.answer.Some? then a.answer else last, attempts[1..]))
  }

  function Accepted(attempts: seq<Attempt>): seq<int> {
    if attempts == [] then []
    else (if attempts[0].answer.Some? then [attempts[0].answer.value] else []) + Accepted(attempts[1..])
  }

  // Accepted steps strictly increase, so no step is ever accepted twice (section 5.2 of RFC 6238).
  lemma {:induction false} AcceptedIncrease(mac: Mac, last: Option<int>, attempts: seq<Attempt>)
    requires IsSha1(mac) && SignIns(mac, last, attempts)
    ensures forall i, j :: 0 <= i < j < |Accepted(attempts)| ==> Accepted(attempts)[i] < Accepted(attempts)[j]
    ensures last.Some? ==> forall i :: 0 <= i < |Accepted(attempts)| ==> last.value < Accepted(attempts)[i]
    decreases |attempts|
  {
    if attempts != [] {
      var a := attempts[0];
      AcceptedIncrease(mac, if a.answer.Some? then a.answer else last, attempts[1..]);
    }
  }

  lemma {:induction false} AcceptedInWindow(mac: Mac, last: Option<int>, attempts: seq<Attempt>, lo: int, hi: int)
    requires IsSha1(mac) && SignIns(mac, last, attempts)
    requires forall i :: 0 <= i < |attempts| ==> lo <= StepAt(attempts[i].now) <= hi
    ensures forall i :: 0 <= i < |Accepted(attempts)| ==> lo - WINDOW <= Accepted(attempts)[i] <= hi + WINDOW
    decreases |attempts|
  {
    if attempts != [] {
      var a := attempts[0];
      AcceptedInWindow(mac, if a.answer.Some? then a.answer else last, attempts[1..], lo, hi);
    }
  }

  lemma {:induction false} IncreasingFits(s: seq<int>, lo: int, hi: int)
    requires forall i, j :: 0 <= i < j < |s| ==> s[i] < s[j]
    requires forall i :: 0 <= i < |s| ==> lo <= s[i] <= hi
    ensures s != [] ==> |s| <= hi - lo + 1
    decreases |s|
  {
    if s != [] {
      assert lo <= s[|s| - 1] <= hi;
      IncreasingFits(s[..|s| - 1], lo, s[|s| - 1] - 1);
    }
  }

  // At most (last step - first step + 3) sign-ins succeed, however many are tried.
  lemma SignInsAreFew(mac: Mac, last: Option<int>, attempts: seq<Attempt>, lo: int, hi: int)
    requires IsSha1(mac) && SignIns(mac, last, attempts)
    requires forall i :: 0 <= i < |attempts| ==> lo <= StepAt(attempts[i].now) <= hi
    requires lo <= hi
    ensures |Accepted(attempts)| <= hi - lo + 3
  {
    AcceptedIncrease(mac, last, attempts);
    AcceptedInWindow(mac, last, attempts, lo, hi);
    IncreasingFits(Accepted(attempts), lo - WINDOW, hi + WINDOW);
  }
}
