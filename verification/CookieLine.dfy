/** What a cookie line is, field by field, and that none is lost (src/copycast/domain/cookies.py:42-45, 89-134). */
module CookieLine {
  import opened Basics
  import opened TextOrder
  import opened CookieText
  import opened CookieJar

  // ------------------------------------------------------------------ fields

  predicate Without(s: string, c: char) {
    c !in s
  }

  lemma {:induction false} SplitHead(field: string, sep: char, rest: string)
    requires Without(field, sep)
    ensures Split(field, sep) == [field]
    ensures Split(field + [sep] + rest, sep) == [field] + Split(rest, sep)
  {
    if field == [] {
      assert field + [sep] + rest == [sep] + rest;
    } else {
      assert (field + [sep] + rest)[1..] == field[1..] + [sep] + rest;
      SplitHead(field[1..], sep, rest);
      assert [field[0]] + field[1..] == field;
    }
  }

  // Splitting undoes joining with a separator no field holds ...
  lemma {:induction false} SplitUndoesJoin(fields: seq<string>, sep: char)
    requires fields != [] && forall i :: 0 <= i < |fields| ==> Without(fields[i], sep)
    ensures Split(Join(fields, [sep]), sep) == fields
  {
    if |fields| == 1 {
      SplitHead(fields[0], sep, "");
    } else {
      SplitHead(fields[0], sep, Join(fields[1..], [sep]));
      SplitUndoesJoin(fields[1..], sep);
      assert Join(fields, [sep]) == fields[0] + [sep] + Join(fields[1..], [sep]);
    }
  }

  // ... and joining undoes splitting.
  lemma {:induction false} JoinUndoesSplit(s: string, sep: char)
    ensures Join(Split(s, sep), [sep]) == s
    ensures forall i :: 0 <= i < |Split(s, sep)| ==> Without(Split(s, sep)[i], sep)
  {
    if s != [] {
      var rest := Split(s[1..], sep);
      JoinUndoesSplit(s[1..], sep);
      if s[0] == sep {
        assert ([""] + rest)[1..] == rest;
        assert Join([""] + rest, [sep]) == "" + [sep] + s[1..];
      } else {
        assert ([[s[0]] + rest[0]] + rest[1..])[1..] == rest[1..];
        assert Join([[s[0]] + rest[0]] + rest[1..], [sep]) == [s[0]] + Join(rest, [sep]);
      }
    }
  }

  // ------------------------------------------------------------------ one line

  // Some character is not whitespace.
  predicate Visible(s: string) {
    exists i :: 0 <= i < |s| && !PySpace(s[i])
  }

  // A line of these fields: tabs between them, and it is either marked as HttpOnly or is neither
  // blank nor a comment.
  predicate Spells(line: string, fields: seq<string>) {
    && fields != [] && (forall i :: 0 <= i < |fields| ==> Without(fields[i], '\t'))
    && (|| line == "#HttpOnly_" + Join(fields, "\t")
        || (line == Join(fields, "\t") && Visible(line) && (fields[0] == "" || fields[0][0] != '#')))
  }

  lemma Beginning(line: string, prefix: string)
    requires prefix != ""
    ensures StartsWith(line, prefix) ==> line != "" && line[0] == prefix[0]
    ensures |prefix| == 1 && line != "" && line[0] == prefix[0] ==> StartsWith(line, prefix)
  {
  }

  // Seven fields make a cookie: of the first one's domain, the third one's path and the sixth one's
  // name; any other number makes none.
  lemma FieldsAreRead(line: string, fields: seq<string>)
    requires Spells(line, fields)
    ensures KeyOf(line) == if |fields| == 7 then Some(Key(Lower(fields[0]), fields[2], fields[5])) else None
  {
    var body := Join(fields, "\t");
    SplitUndoesJoin(fields, '\t');
    assert [ '\t' ] == "\t";
    if line == "#HttpOnly_" + body {
      assert line[..|HTTPONLY_PREFIX|] == HTTPONLY_PREFIX && line[|HTTPONLY_PREFIX|..] == body;
      assert line[0] == '#' && !PySpace(line[0]);
    } else {
      BodyStart(fields);
      Beginning(line, "#");
      Beginning(line, HTTPONLY_PREFIX);
    }
  }

  // A line that does not begin with its first field begins with a tab or is empty.
  lemma BodyStart(fields: seq<string>)
    requires fields != []
    ensures fields[0] != "" ==> Join(fields, "\t") != "" && Join(fields, "\t")[0] == fields[0][0]
    ensures fields[0] == "" ==> Join(fields, "\t") == "" || Join(fields, "\t")[0] == '\t'
  {
  }

  // Nothing else is a cookie line: what is one spells seven fields.
  lemma CookieLinesSpellFields(line: string) returns (fields: seq<string>)
    requires KeyOf(line).Some?
    ensures Spells(line, fields) && |fields| == 7
    ensures KeyOf(line) == Some(Key(Lower(fields[0]), fields[2], fields[5]))
  {
    var marked := StartsWith(line, HTTPONLY_PREFIX);
    var body := if marked then line[|HTTPONLY_PREFIX|..] else line;
    fields := Split(body, '\t');
    JoinUndoesSplit(body, '\t');
    assert ['\t'] == "\t";
    if marked {
      assert line == line[..|HTTPONLY_PREFIX|] + body;
    } else {
      BodyStart(fields);
      Beginning(line, "#");
    }
  }

  // ------------------------------------------------------------------ one file

  lemma {:induction false} BreakAt(line: string, c: char, rest: string)
    requires Unbroken(line) && IsBreak(c)
    ensures FirstBreak(line + [c] + rest) == |line|
  {
    if line != [] {
      assert (line + [c] + rest)[1..] == line[1..] + [c] + rest;
      BreakAt(line[1..], c, rest);
    } else {
      assert line + [c] + rest == [c] + rest;
    }
  }

  // A line ends at a line feed, a carriage return or both in that order, and at the other characters
  // Python breaks lines at.
  lemma LinesEnd(line: string, c: char, rest: string)
    requires Unbroken(line)
    requires c in {'\n', '\r', '\U{0b}', '\U{0c}', '\U{1c}', '\U{1d}', '\U{1e}', '\U{85}', '\U{2028}', '\U{2029}'}
    ensures SplitLines(line + [c] + rest) ==
            [line] + SplitLines(if c == '\r' && rest != "" && rest[0] == '\n' then rest[1..] else rest)
  {
    var text := line + [c] + rest;
    BreakAt(line, c, rest);
    assert text[|line|] == c && text[..|line|] == line && text[|line| + 1..] == rest;
    if rest != "" {
      assert text[|line| + 1] == rest[0] && text[|line| + 2..] == rest[1..];
    }
  }

  lemma {:induction false} CookiesHave(lines: seq<string>, c: Cookie)
    requires forall i :: 0 <= i < |lines| ==> Unbroken(lines[i])
    ensures c in Cookies(lines) <==> c.line in lines && KeyOf(c.line) == Some(c.key)
  {
    if lines != [] {
      CookiesHave(lines[1..], c);
    }
  }

  // A file of one such line reads as that one cookie, or as none.
  lemma OneLineFile(line: string, fields: seq<string>)
    requires Spells(line, fields) && Unbroken(line)
    ensures CookieLines(line + "\n") ==
            if |fields| == 7 then [Cookie(Key(Lower(fields[0]), fields[2], fields[5]), line)] else []
  {
    FieldsAreRead(line, fields);
    SplitFirst(line, "");
    assert line + "\n" + "" == line + "\n";
    assert SplitLines(line + "\n") == [line];
    assert [line][1..] == [] && Cookies([line]) == CookiesOf(line) + [];
  }

  // The cookies of a file are its lines of seven fields.
  lemma FileHas(text: string, c: Cookie)
    ensures c in CookieLines(text) <==> c.line in SplitLines(text) && KeyOf(c.line) == Some(c.key)
  {
    CookiesHave(SplitLines(text), c);
  }

  // ------------------------------------------------------------------ the jar

  // Every line of seven fields, marked HttpOnly or not, of every file is a cookie of the merged jar.
  lemma EveryLineReachesTheJar(files: Files, name: string, line: string, fields: seq<string>)
    requires name in files && line in SplitLines(files[name]) && Spells(line, fields) && |fields| == 7
    ensures Cookie(Key(Lower(fields[0]), fields[2], fields[5]), line) in CookieLines(Merged(files))
    ensures line in SplitLines(Merged(files))
  {
    var c := Cookie(Key(Lower(fields[0]), fields[2], fields[5]), line);
    FieldsAreRead(line, fields);
    FileHas(files[name], c);
    MergedReads(files);
    GatheredHas(Sorted(files.Keys), files);
    assert name in Sorted(files.Keys);
    FileHas(Merged(files), c);
  }

  function KeysOf(cookies: seq<Cookie>): seq<Key> {
    seq(|cookies|, i requires 0 <= i < |cookies| => cookies[i].key)
  }

  // The dict keeps its keys in the order they first stand in.
  lemma {:induction false} DictKeepsOrder(cookies: seq<Cookie>)
    ensures KeyOrder(cookies) == FirstTimes(KeysOf(cookies))
  {
    if cookies != [] {
      DictKeepsOrder(cookies[..|cookies| - 1]);
      assert KeysOf(cookies)[..|cookies| - 1] == KeysOf(cookies[..|cookies| - 1]);
    }
  }

  // The last of these cookies with this key.
  ghost predicate LastOf(cookies: seq<Cookie>, key: Key, line: string) {
    exists i :: && 0 <= i < |cookies| && cookies[i] == Cookie(key, line)
                && forall j :: i < j < |cookies| ==> cookies[j].key != key
  }

  lemma {:induction false} DictIsLast(cookies: seq<Cookie>, key: Key, line: string)
    requires LastOf(cookies, key, line)
    ensures key in Dict(cookies) && Dict(cookies)[key] == line
  {
    var n := |cookies| - 1;
    var before := cookies[..n];
    if cookies[n].key != key {
      var i :| 0 <= i < |cookies| && cookies[i] == Cookie(key, line)
               && forall j :: i < j < |cookies| ==> cookies[j].key != key;
      assert before[i] == Cookie(key, line);
      assert LastOf(before, key, line);
      DictIsLast(before, key, line);
    }
  }

  lemma LastOfFront(front: seq<Cookie>, back: seq<Cookie>, key: Key, line: string)
    requires LastOf(front, key, line) && key !in Keys(back)
    ensures LastOf(front + back, key, line)
  {
    var i :| 0 <= i < |front| && front[i] == Cookie(key, line) && forall j :: i < j < |front| ==> front[j].key != key;
    assert (front + back)[i] == Cookie(key, line);
    forall j | i < j < |front + back| ensures (front + back)[j].key != key {
      if j >= |front| {
        assert back[j - |front|] in back;
      }
    }
  }

  lemma LastOfBack(front: seq<Cookie>, back: seq<Cookie>, key: Key, line: string)
    requires LastOf(back, key, line)
    ensures LastOf(front + back, key, line)
  {
    var i :| 0 <= i < |back| && back[i] == Cookie(key, line) && forall j :: i < j < |back| ==> back[j].key != key;
    assert (front + back)[|front| + i] == Cookie(key, line);
    forall j | |front| + i < j < |front + back| ensures (front + back)[j].key != key {
      assert (front + back)[j] == back[j - |front|];
    }
  }

  lemma GatheredLacks(names: seq<string>, files: Files, key: Key)
    requires forall n :: n in names ==> n in files && key !in FileKeys(files[n])
    ensures key !in Keys(Gathered(names, files))
  {
    GatheredHas(names, files);
  }

  lemma {:induction false} GatheredLast(names: seq<string>, files: Files, k: nat, key: Key, line: string)
    requires (forall n :: n in names ==> n in files) && k < |names|
    requires LastOf(CookieLines(files[names[k]]), key, line)
    requires forall j :: k < j < |names| ==> key !in FileKeys(files[names[j]])
    ensures LastOf(Gathered(names, files), key, line)
  {
    var own, rest := CookieLines(files[names[0]]), Gathered(names[1..], files);
    if k == 0 {
      GatheredLacks(names[1..], files, key);
      LastOfFront(own, rest, key, line);
    } else {
      GatheredLast(names[1..], files, k - 1, key, line);
      LastOfBack(own, rest, key, line);
    }
  }

  // Of a key several files hold, the merged jar goes by the last line of the last file.
  lemma LaterFileWins(files: Files, name: string, key: Key, line: string)
    requires name in files && LastOf(CookieLines(files[name]), key, line)
    requires forall n :: n in files && Before(name, n) ==> key !in FileKeys(files[n])
    ensures LastOf(CookieLines(Merged(files)), key, line)
    ensures key in Dict(CookieLines(Merged(files))) && Dict(CookieLines(Merged(files)))[key] == line
  {
    var names := Sorted(files.Keys);
    assert name in names;
    var k :| 0 <= k < |names| && names[k] == name;
    SortedInOrder(files.Keys);
    forall j | k < j < |names| ensures key !in FileKeys(files[names[j]]) {
      assert names[j] in names;
    }
    GatheredLast(names, files, k, key, line);
    MergedReads(files);
    DictIsLast(Gathered(names, files), key, line);
  }

  // A file that holds a cookie keeps it through a split, as the last line the jar has for it; HttpOnly
  // cookies as any other.
  lemma EveryLineComesBack(jar: string, files: Files, name: string, fields: seq<string>, line: string, jarLine: string)
    requires name in files && line in SplitLines(files[name]) && Spells(line, fields) && |fields| == 7
    requires LastOf(CookieLines(jar), Key(Lower(fields[0]), fields[2], fields[5]), jarLine)
    ensures jarLine in SplitLines(SplitJar(jar, files)[name])
  {
    var key := Key(Lower(fields[0]), fields[2], fields[5]);
    FieldsAreRead(line, fields);
    FileHas(files[name], Cookie(key, line));
    assert key in FileKeys(files[name]);
    DictIsLast(CookieLines(jar), key, jarLine);
    ContentHas(jar, files, name, Cookie(key, jarLine));
    ContentReads(jar, files, name);
    FileHas(SplitJar(jar, files)[name], Cookie(key, jarLine));
  }

  // ------------------------------------------------------------------ the site of a domain

  lemma {:induction false} NonEmptyAll(parts: seq<string>)
    requires forall i :: 0 <= i < |parts| ==> parts[i] != ""
    ensures NonEmpty(parts) == parts
  {
    if parts != [] {
      NonEmptyAll(parts[1..]);
    }
  }

  // A label as a host name has them.
  predicate Label(s: string) {
    s != "" && forall i :: 0 <= i < |s| ==> s[i] != '.' && !PySpace(s[i])
  }

  lemma {:induction false} JoinedEnds(labels: seq<string>)
    requires labels != [] && forall i :: 0 <= i < |labels| ==> Label(labels[i])
    ensures var host := Join(labels, ".");
            && host != "" && host[0] != '.' && !PySpace(host[0])
            && host[|host| - 1] != '.' && !PySpace(host[|host| - 1])
  {
    assert Label(labels[0]);
    if |labels| > 1 {
      JoinedEnds(labels[1..]);
    }
  }

  // What stripping leaves of a host name, with or without a leading dot.
  lemma StrippedHost(host: string)
    requires host != "" && host[0] != '.' && !PySpace(host[0])
    requires host[|host| - 1] != '.' && !PySpace(host[|host| - 1])
    ensures Strip(Strip(host, PySpace), IsDot) == host
    ensures Strip(Strip("." + host, PySpace), IsDot) == host
  {
    assert Strip(host, PySpace) == host;
    assert ("." + host)[1..] == host;
    assert Strip("." + host, PySpace) == "." + host;
  }

  // The site of a domain is its last two labels, in small letters, whether or not a dot leads it.
  lemma LastTwoLabels(host: string, labels: seq<string>)
    requires labels != [] && forall i :: 0 <= i < |labels| ==> Label(labels[i])
    requires Lower(host) == Join(labels, ".") || Lower(host) == "." + Join(labels, ".")
    ensures RegistrableDomain(host) ==
            if |labels| == 1 then labels[0] else labels[|labels| - 2] + "." + labels[|labels| - 1]
  {
    JoinedEnds(labels);
    StrippedHost(Join(labels, "."));
    LabelsOf(labels);
    LastTwo(labels);
    SiteOf(host, labels);
  }

  lemma SiteOf(host: string, labels: seq<string>)
    requires NonEmpty(Split(Strip(Strip(Lower(host), PySpace), IsDot), '.')) == labels
    ensures RegistrableDomain(host) == Join(if |labels| >= 2 then labels[|labels| - 2..] else labels, ".")
  {
  }

  lemma LabelsOf(labels: seq<string>)
    requires labels != [] && forall i :: 0 <= i < |labels| ==> Label(labels[i])
    ensures NonEmpty(Split(Join(labels, "."), '.')) == labels
  {
    assert ['.'] == ".";
    forall i | 0 <= i < |labels| ensures Without(labels[i], '.') && labels[i] != "" {
      assert Label(labels[i]);
    }
    SplitUndoesJoin(labels, '.');
    NonEmptyAll(labels);
  }

  lemma LastTwo(labels: seq<string>)
    requires labels != []
    ensures Join(if |labels| >= 2 then labels[|labels| - 2..] else labels, ".") ==
            if |labels| == 1 then labels[0] else labels[|labels| - 2] + "." + labels[|labels| - 1]
  {
    if |labels| >= 2 {
      assert labels[|labels| - 2..][1..] == [labels[|labels| - 1]];
    }
  }
}
