/** Netscape cookie files as text: reading their lines and writing them (src/copycast/domain/cookies.py:42-103). */
module CookieText {
  import opened Basics

  // `str.splitlines` breaks at these, and at "\r\n" as one break.
  predicate IsBreak(c: char) {
    || c == '\n' || c == '\r' || c == '\U{0b}' || c == '\U{0c}' || c == '\U{1c}' || c == '\U{1d}'
    || c == '\U{1e}' || c == '\U{85}' || c == '\U{2028}' || c == '\U{2029}'
  }

  predicate Unbroken(s: string) {
    forall i :: 0 <= i < |s| ==> !IsBreak(s[i])
  }

  function FirstBreak(s: string): (i: nat)
    ensures i <= |s| && Unbroken(s[..i]) && (i < |s| ==> IsBreak(s[i]))
  {
    if s == [] || IsBreak(s[0]) then 0
    else
      var i := 1 + FirstBreak(s[1..]);
      assert s[..i] == [s[0]] + s[1..][..i - 1];
      i
  }

  function SplitLines(text: string): (lines: seq<string>)
    ensures forall i :: 0 <= i < |lines| ==> Unbroken(lines[i])
    decreases |text|
  {
    if text == [] then []
    else
      var i := FirstBreak(text);
      if i == |text| then [text]
      else
        var next := if text[i] == '\r' && i + 1 < |text| && text[i + 1] == '\n' then i + 2 else i + 1;
        [text[..i]] + SplitLines(text[next..])
  }

  // `s.split(sep)`: always at least one field.
  function Split(s: string, sep: char): (fields: seq<string>)
    ensures fields != []
  {
    if s == [] then [""]
    else if s[0] == sep then [""] + Split(s[1..], sep)
    else
      var rest := Split(s[1..], sep);
      [[s[0]] + rest[0]] + rest[1..]
  }

  function LowerChar(c: char): char {
    if 'A' <= c <= 'Z' then (c as int + 32) as char else c
  }

  function Lower(s: string): string {
    seq(|s|, i requires 0 <= i < |s| => LowerChar(s[i]))
  }

  // Strip the characters `drop` accepts from both ends.
  function Strip(s: string, drop: char -> bool): string {
    if s == [] then s
    else if drop(s[0]) then Strip(s[1..], drop)
    else if drop(s[|s| - 1]) then Strip(s[..|s| - 1], drop)
    else s
  }

  function NonEmpty(parts: seq<string>): seq<string> {
    if parts == [] then []
    else (if parts[0] == "" then [] else [parts[0]]) + NonEmpty(parts[1..])
  }

  predicate IsDot(c: char) {
    c == '.'
  }

  function RegistrableDomain(host: string): string {
    var labels := NonEmpty(Split(Strip(Strip(Lower(host), PySpace), IsDot), '.'));
    Join(if |labels| >= 2 then labels[|labels| - 2..] else labels, ".")
  }

  // ------------------------------------------------------------------ cookie lines

  const HTTPONLY_PREFIX := "#HttpOnly_"
  const NETSCAPE_HEADER := "# Netscape HTTP Cookie File"
  const COOKIE_FIELDS := 7

  datatype Key = Key(domain: string, path: string, name: string)

  datatype Cookie = Cookie(key: Key, line: string)

  predicate Blank(line: string) {
    forall i :: 0 <= i < |line| ==> PySpace(line[i])
  }

  predicate StartsWith(s: string, prefix: string) {
    |prefix| <= |s| && s[..|prefix|] == prefix
  }

  function WithoutCR(raw: string): (line: string)
    ensures |line| <= |raw| && line == raw[..|line|]
    ensures Unbroken(raw) ==> line == raw
  {
    if raw != [] && raw[|raw| - 1] == '\r' then WithoutCR(raw[..|raw| - 1]) else raw
  }

  // The key of a cookie line; None for a comment, a blank or a malformed line.
  function KeyOf(line: string): Option<Key> {
    if Blank(line) || (StartsWith(line, "#") && !StartsWith(line, HTTPONLY_PREFIX)) then None
    else
      var fields := Split(if StartsWith(line, HTTPONLY_PREFIX) then line[|HTTPONLY_PREFIX|..] else line, '\t');
      if |fields| == COOKIE_FIELDS then Some(Key(Lower(fields[0]), fields[2], fields[5])) else None
  }

  // A line `cookie_lines` can return: it names a key and stays one line when written.
  predicate IsCookie(c: Cookie) {
    KeyOf(c.line) == Some(c.key) && Unbroken(c.line)
  }

  // What one line adds: its cookie, or nothing.
  function CookiesOf(line: string): (cookies: seq<Cookie>)
    requires Unbroken(line)
    ensures forall i :: 0 <= i < |cookies| ==> IsCookie(cookies[i])
  {
    var key := KeyOf(line);
    if key.Some? then [Cookie(key.value, line)] else []
  }

  function Cookies(lines: seq<string>): (cookies: seq<Cookie>)
    requires forall i :: 0 <= i < |lines| ==> Unbroken(lines[i])
    ensures forall i :: 0 <= i < |cookies| ==> IsCookie(cookies[i])
  {
    if lines == [] then [] else CookiesOf(WithoutCR(lines[0])) + Cookies(lines[1..])
  }

  function CookieLines(text: string): (cookies: seq<Cookie>)
    ensures forall i :: 0 <= i < |cookies| ==> IsCookie(cookies[i])
  {
    Cookies(SplitLines(text))
  }

  // One turn of the loop of `cookie_lines`.
  method ReadLine(line: string) returns (cookies: seq<Cookie>)
    requires Unbroken(line)
    ensures cookies == CookiesOf(line)
  {
    if Blank(line) || (StartsWith(line, "#") && !StartsWith(line, HTTPONLY_PREFIX)) {
      return [];
    }
    var fields := Split(if StartsWith(line, HTTPONLY_PREFIX) then line[|HTTPONLY_PREFIX|..] else line, '\t');
    cookies := if |fields| == COOKIE_FIELDS then [Cookie(Key(Lower(fields[0]), fields[2], fields[5]), line)] else [];
  }

  method ReadCookieLines(text: string) returns (cookies: seq<Cookie>)
    ensures cookies == CookieLines(text)
  {
    cookies := [];
    var rest := SplitLines(text);
    while rest != []
      invariant forall i :: 0 <= i < |rest| ==> Unbroken(rest[i])
      invariant cookies + Cookies(rest) == CookieLines(text)
      decreases |rest|
    {
      var more := ReadLine(WithoutCR(rest[0]));
      assert cookies + Cookies(rest) == (cookies + more) + Cookies(rest[1..]);
      cookies, rest := cookies + more, rest[1..];
    }
  }

  function Lines(cookies: seq<Cookie>): (lines: seq<string>)
    ensures (forall i :: 0 <= i < |cookies| ==> IsCookie(cookies[i])) ==>
              forall i :: 0 <= i < |lines| ==> Unbroken(lines[i])
  {
    seq(|cookies|, i requires 0 <= i < |cookies| => cookies[i].line)
  }

  function Render(lines: seq<string>): string {
    Join([NETSCAPE_HEADER, ""] + lines, "\n") + "\n"
  }

  // ------------------------------------------------------------------ reading what was written

  lemma {:induction false} FirstBreakAt(line: string, rest: string)
    requires Unbroken(line)
    ensures FirstBreak(line + "\n" + rest) == |line|
  {
    if line != [] {
      assert (line + "\n" + rest)[1..] == line[1..] + "\n" + rest;
      FirstBreakAt(line[1..], rest);
    }
  }

  lemma SplitFirst(line: string, rest: string)
    requires Unbroken(line)
    ensures SplitLines(line + "\n" + rest) == [line] + SplitLines(rest)
  {
    var text := line + "\n" + rest;
    FirstBreakAt(line, rest);
    assert text[|line|] == '\n';
    assert text[..|line|] == line && text[|line| + 1..] == rest;
  }

  // Lines written with a newline after each read back as they were.
  lemma {:induction false} SplitJoined(lines: seq<string>)
    requires lines != [] && forall i :: 0 <= i < |lines| ==> Unbroken(lines[i])
    ensures SplitLines(Join(lines, "\n") + "\n") == lines
  {
    var text := Join(lines, "\n") + "\n";
    var rest := if |lines| == 1 then "" else Join(lines[1..], "\n") + "\n";
    assert text == lines[0] + "\n" + rest;
    SplitFirst(lines[0], rest);
    if |lines| > 1 {
      SplitJoined(lines[1..]);
    }
    assert lines == [lines[0]] + lines[1..];
  }

  lemma {:induction false} CookiesOfLines(cookies: seq<Cookie>)
    requires forall i :: 0 <= i < |cookies| ==> IsCookie(cookies[i])
    ensures Cookies(Lines(cookies)) == cookies
  {
    if cookies != [] {
      assert Lines(cookies)[1..] == Lines(cookies[1..]);
      CookiesOfLines(cookies[1..]);
    }
  }

  // A rendered file reads back as exactly the cookie lines written into it.
  lemma RenderReads(cookies: seq<Cookie>)
    requires forall i :: 0 <= i < |cookies| ==> IsCookie(cookies[i])
    ensures CookieLines(Render(Lines(cookies))) == cookies
  {
    var lines := [NETSCAPE_HEADER, ""] + Lines(cookies);
    assert Unbroken(NETSCAPE_HEADER) && Unbroken("");
    SplitJoined(lines);
    assert StartsWith(NETSCAPE_HEADER, "#") && NETSCAPE_HEADER[1] == ' ';
    assert !StartsWith(NETSCAPE_HEADER, HTTPONLY_PREFIX) by {
      assert HTTPONLY_PREFIX[1] == 'H';
    }
    assert lines[1..][1..] == Lines(cookies);
    assert Cookies(lines) == Cookies(lines[1..]) == Cookies(Lines(cookies));
    CookiesOfLines(cookies);
  }
}
