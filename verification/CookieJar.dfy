/**
 Merging several cookie files into the Engine's jar, and carrying the jar back into them
 (src/copycast/domain/cookies.py:102-134).
 */
module CookieJar {
  import opened Basics
  import opened TextOrder
  import opened CookieText

  type Files = map<string, string>

  // ------------------------------------------------------------------ the specification

  function Keys(cookies: seq<Cookie>): set<Key> {
    set c | c in cookies :: c.key
  }

  function FileKeys(text: string): set<Key> {
    Keys(CookieLines(text))
  }

  // `dict(cookie_lines(jar))`: the last line of a key wins.
  function Dict(cookies: seq<Cookie>): map<Key, string> {
    if cookies == [] then map[]
    else
      var c := cookies[|cookies| - 1];
      Dict(cookies[..|cookies| - 1])[c.key := c.line]
  }

  // The keys of that dict in its order: by first occurrence.
  function KeyOrder(cookies: seq<Cookie>): (keys: seq<Key>)
  {
    if cookies == [] then []
    else
      var before := KeyOrder(cookies[..|cookies| - 1]);
      var key := cookies[|cookies| - 1].key;
      if key in before then before else before + [key]
  }

  ghost predicate Claimed(files: Files, key: Key) {
    exists n :: n in files && key in FileKeys(files[n])
  }

  ghost predicate Holds(text: string, domain: string) {
    exists key :: key in FileKeys(text) && RegistrableDomain(key.domain) == domain
  }

  ghost function Holders(files: Files, domain: string): set<string> {
    set n | n in files && Holds(files[n], domain)
  }

  ghost function FirstIn(names: seq<string>, chosen: set<string>): Option<string> {
    if names == [] then None
    else if names[0] in chosen then Some(names[0])
    else FirstIn(names[1..], chosen)
  }

  // The first file, by name, that holds a cookie of the key's site.
  ghost function OwnerOf(files: Files, key: Key): Option<string> {
    FirstIn(Sorted(files.Keys), Holders(files, RegistrableDomain(key.domain)))
  }

  // A file's own keys, each with the jar's current line; keys the jar dropped go.
  function Updated(cookies: seq<Cookie>, current: map<Key, string>): seq<Cookie> {
    if cookies == [] then []
    else
      var key := cookies[0].key;
      (if key in current then [Cookie(key, current[key])] else []) + Updated(cookies[1..], current)
  }

  // The jar's keys no file held that belong to `name`.
  ghost function Adopted(keys: seq<Key>, current: map<Key, string>, files: Files, name: string): seq<Cookie> {
    if keys == [] then []
    else
      var key := keys[0];
      (if key in current && !Claimed(files, key) && OwnerOf(files, key) == Some(name)
       then [Cookie(key, current[key])] else [])
      + Adopted(keys[1..], current, files, name)
  }

  ghost function Content(jar: string, files: Files, name: string): seq<Cookie>
    requires name in files
  {
    var lines := CookieLines(jar);
    Updated(CookieLines(files[name]), Dict(lines)) + Adopted(KeyOrder(lines), Dict(lines), files, name)
  }

  ghost function SplitJar(jar: string, files: Files): Files {
    map name | name in files :: Render(Lines(Content(jar, files, name)))
  }

  function Gathered(names: seq<string>, files: Files): seq<Cookie>
    requires forall n :: n in names ==> n in files
  {
    if names == [] then [] else CookieLines(files[names[0]]) + Gathered(names[1..], files)
  }

  ghost function Merged(files: Files): string {
    Render(Lines(Gathered(Sorted(files.Keys), files)))
  }

  // ------------------------------------------------------------------ dicts

  lemma {:induction false} DictLines(cookies: seq<Cookie>)
    ensures Dict(cookies).Keys == Keys(cookies)
    ensures forall k :: k in Dict(cookies) ==> Cookie(k, Dict(cookies)[k]) in cookies
    ensures forall k :: k in KeyOrder(cookies) <==> k in Keys(cookies)
  {
    if cookies != [] {
      var before := cookies[..|cookies| - 1];
      var c := cookies[|cookies| - 1];
      DictLines(before);
      assert cookies == before + [c];
      assert Keys(cookies) == Keys(before) + {c.key};
    }
  }

  // When every line is the one `current` gives its key, the dict is `current` on those keys.
  lemma DictUniform(cookies: seq<Cookie>, current: map<Key, string>)
    requires forall c :: c in cookies ==> c.key in current && c.line == current[c.key]
    ensures Dict(cookies) == map k | k in current && k in Keys(cookies) :: current[k]
  {
    DictLines(cookies);
  }

  // ------------------------------------------------------------------ what lands where

  lemma {:induction false} UpdatedHas(cookies: seq<Cookie>, current: map<Key, string>)
    ensures forall c :: c in Updated(cookies, current) <==>
              c.key in current && c.line == current[c.key] && c.key in Keys(cookies)
  {
    if cookies != [] {
      UpdatedHas(cookies[1..], current);
      assert cookies == [cookies[0]] + cookies[1..];
      assert Keys(cookies) == {cookies[0].key} + Keys(cookies[1..]);
    }
  }

  lemma {:induction false} AdoptedHas(keys: seq<Key>, current: map<Key, string>, files: Files, name: string)
    ensures forall c :: c in Adopted(keys, current, files, name) <==>
              && c.key in keys && c.key in current && c.line == current[c.key]
              && !Claimed(files, c.key) && OwnerOf(files, c.key) == Some(name)
  {
    if keys != [] {
      AdoptedHas(keys[1..], current, files, name);
    }
  }

  // What a file holds after the split: the jar's line for each key it held or adopts.
  ghost predicate Gets(jar: string, files: Files, name: string, key: Key)
    requires name in files
  {
    && key in Dict(CookieLines(jar))
    && (key in FileKeys(files[name]) || (!Claimed(files, key) && OwnerOf(files, key) == Some(name)))
  }

  lemma ContentHas(jar: string, files: Files, name: string, c: Cookie)
    requires name in files
    ensures c in Content(jar, files, name) <==>
            Gets(jar, files, name, c.key) && c.line == Dict(CookieLines(jar))[c.key]
  {
    var lines := CookieLines(jar);
    DictLines(lines);
    UpdatedHas(CookieLines(files[name]), Dict(lines));
    AdoptedHas(KeyOrder(lines), Dict(lines), files, name);
  }

  lemma ContentReads(jar: string, files: Files, name: string)
    requires name in files
    ensures CookieLines(SplitJar(jar, files)[name]) == Content(jar, files, name)
  {
    var lines := CookieLines(jar);
    DictLines(lines);
    var content := Content(jar, files, name);
    forall i | 0 <= i < |content| ensures IsCookie(content[i]) {
      ContentHas(jar, files, name, content[i]);
      assert content[i] in lines;
    }
    RenderReads(content);
  }

  // The placement: after a split, a file holds exactly the keys it gets.
  lemma Placement(jar: string, files: Files, name: string, key: Key)
    requires name in files
    ensures key in FileKeys(SplitJar(jar, files)[name]) <==> Gets(jar, files, name, key)
  {
    ContentReads(jar, files, name);
    var content := Content(jar, files, name);
    if Gets(jar, files, name, key) {
      var c := Cookie(key, Dict(CookieLines(jar))[key]);
      ContentHas(jar, files, name, c);
      assert c in content;
    }
    if key in Keys(content) {
      var c :| c in content && c.key == key;
      ContentHas(jar, files, name, c);
    }
  }

  lemma {:induction false} FirstFound(names: seq<string>, chosen: set<string>)
    ensures var o := FirstIn(names, chosen);
            && (o.Some? <==> exists n :: n in names && n in chosen)
            && (o.Some? ==> o.value in names && o.value in chosen)
  {
    if names != [] && names[0] !in chosen {
      FirstFound(names[1..], chosen);
      assert forall n :: n in names <==> n == names[0] || n in names[1..];
    }
  }

  lemma {:induction false} FirstIsFirst(names: set<string>, chosen: set<string>, name: string)
    ensures FirstIn(Sorted(names), chosen) == Some(name) <==>
            name in names && name in chosen && forall n :: n in names && Before(n, name) ==> n !in chosen
  {
    if names != {} {
      SortedHead(names);
      var first := Sorted(names)[0];
      FirstIsFirst(names - {first}, chosen, name);
      forall n | n in names ensures !Before(n, first) && (n == first || Before(first, n)) {
        BeforeTotal(n, first);
      }
    }
  }

  lemma SortedHead(names: set<string>)
    requires names != {}
    ensures Sorted(names) != [] && IsFirst(Sorted(names)[0], names)
    ensures Sorted(names)[1..] == Sorted(names - {Sorted(names)[0]})
  {
    FirstExists(names);
  }

  // Some file holds a cookie of the key's site.
  ghost predicate Covered(files: Files, key: Key) {
    exists n :: n in files && Holds(files[n], RegistrableDomain(key.domain))
  }

  // A key some file gets is a key of a covered site, and the other way round.
  lemma SomeoneGets(jar: string, files: Files, key: Key)
    ensures (exists n :: n in files && Gets(jar, files, n, key)) <==>
            key in Dict(CookieLines(jar)) && Covered(files, key)
  {
    var domain := RegistrableDomain(key.domain);
    FirstFound(Sorted(files.Keys), Holders(files, domain));
    if n :| n in files && Gets(jar, files, n, key) {
      if key in FileKeys(files[n]) {
        assert Holds(files[n], domain);
      }
    }
    if key in Dict(CookieLines(jar)) && Covered(files, key) {
      if Claimed(files, key) {
        var n :| n in files && key in FileKeys(files[n]);
        assert Gets(jar, files, n, key);
      } else {
        var n := OwnerOf(files, key).value;
        assert Gets(jar, files, n, key);
      }
    }
  }

  // A key new to the jar lands in one file only: the first, by name, of its site.
  lemma NewKeyLandsOnce(jar: string, files: Files, key: Key, name: string)
    requires key in Dict(CookieLines(jar)) && !Claimed(files, key) && name in files
    ensures key in FileKeys(SplitJar(jar, files)[name]) <==>
            Holds(files[name], RegistrableDomain(key.domain)) &&
            forall n :: n in files && Before(n, name) ==> !Holds(files[n], RegistrableDomain(key.domain))
  {
    Placement(jar, files, name, key);
    FirstIsFirst(files.Keys, Holders(files, RegistrableDomain(key.domain)), name);
    HeldIsClaimed(files, name, key);
  }

  lemma HeldIsClaimed(files: Files, name: string, key: Key)
    requires name in files
    ensures key in FileKeys(files[name]) ==> Claimed(files, key)
  {
  }

  // ------------------------------------------------------------------ writing back

  lemma {:induction false} GatheredHas(names: seq<string>, files: Files)
    requires forall n :: n in names ==> n in files
    ensures forall c :: c in Gathered(names, files) <==> exists n :: n in names && c in CookieLines(files[n])
    ensures forall i :: 0 <= i < |Gathered(names, files)| ==> IsCookie(Gathered(names, files)[i])
  {
    if names != [] {
      GatheredHas(names[1..], files);
      assert forall n :: n in names <==> n == names[0] || n in names[1..];
    }
  }

  // The merged jar reads back as every file's cookies in name order.
  lemma MergedReads(files: Files)
    ensures CookieLines(Merged(files)) == Gathered(Sorted(files.Keys), files)
  {
    GatheredHas(Sorted(files.Keys), files);
    RenderReads(Gathered(Sorted(files.Keys), files));
  }

  // What the merged jar holds of the jar that was split.
  lemma MergedCookie(jar: string, files: Files, c: Cookie)
    requires c in CookieLines(Merged(SplitJar(jar, files)))
    ensures var current := Dict(CookieLines(jar));
            c.key in current && c.line == current[c.key] && Covered(files, c.key)
  {
    var out := SplitJar(jar, files);
    MergedReads(out);
    GatheredHas(Sorted(out.Keys), out);
    var n :| n in Sorted(out.Keys) && c in CookieLines(out[n]);
    ContentReads(jar, files, n);
    ContentHas(jar, files, n, c);
    SomeoneGets(jar, files, c.key);
  }

  lemma MergedHas(jar: string, files: Files, k: Key)
    requires k in Dict(CookieLines(jar)) && Covered(files, k)
    ensures Cookie(k, Dict(CookieLines(jar))[k]) in CookieLines(Merged(SplitJar(jar, files)))
  {
    var out := SplitJar(jar, files);
    MergedReads(out);
    GatheredHas(Sorted(out.Keys), out);
    SomeoneGets(jar, files, k);
    var n :| n in files && Gets(jar, files, n, k);
    ContentReads(jar, files, n);
    ContentHas(jar, files, n, Cookie(k, Dict(CookieLines(jar))[k]));
    assert n in Sorted(out.Keys);
  }

  // Merging what the split wrote gives the jar again: exactly its keys of covered sites, each
  // with the jar's own line.
  lemma WriteBack(jar: string, files: Files)
    ensures var current := Dict(CookieLines(jar));
            Dict(CookieLines(Merged(SplitJar(jar, files)))) ==
            map k | k in current && Covered(files, k) :: current[k]
  {
    MergedIsUniform(jar, files);
    UniformDict(CookieLines(Merged(SplitJar(jar, files))), Dict(CookieLines(jar)), CoveredKeys(jar, files));
    CoveredOnly(Dict(CookieLines(jar)), files, CoveredKeys(jar, files));
  }

  lemma CoveredOnly(current: map<Key, string>, files: Files, keys: set<Key>)
    requires keys == set k | k in current && Covered(files, k)
    ensures (map k | k in keys :: current[k]) == map k | k in current && Covered(files, k) :: current[k]
  {
  }

  ghost function CoveredKeys(jar: string, files: Files): set<Key> {
    set k | k in Dict(CookieLines(jar)) && Covered(files, k)
  }

  // The merged jar holds the jar's own line of each covered key, and nothing else.
  lemma MergedIsUniform(jar: string, files: Files)
    ensures var current, all := Dict(CookieLines(jar)), CookieLines(Merged(SplitJar(jar, files)));
            var keys := CoveredKeys(jar, files);
            && (forall c :: c in all ==> c.key in keys && c.line == current[c.key])
            && (forall k :: k in keys ==> Cookie(k, current[k]) in all)
  {
    var current, all := Dict(CookieLines(jar)), CookieLines(Merged(SplitJar(jar, files)));
    var keys := CoveredKeys(jar, files);
    forall c | c in all ensures c.key in keys && c.line == current[c.key] {
      MergedCookie(jar, files, c);
    }
    forall k | k in keys ensures Cookie(k, current[k]) in all {
      MergedHas(jar, files, k);
    }
  }

  lemma UniformDict(all: seq<Cookie>, current: map<Key, string>, keys: set<Key>)
    requires keys <= current.Keys
    requires forall c :: c in all ==> c.key in keys && c.line == current[c.key]
    requires forall k :: k in keys ==> Cookie(k, current[k]) in all
    ensures Dict(all) == map k | k in keys :: current[k]
  {
    DictUniform(all, current);
    assert Keys(all) == keys;
  }

  lemma {:induction false} UpdatedSame(cookies: seq<Cookie>, current: map<Key, string>)
    requires forall c :: c in cookies ==> c.key in current && c.line == current[c.key]
    ensures Updated(cookies, current) == cookies
  {
    if cookies != [] {
      assert cookies[0] in cookies;
      UpdatedSame(cookies[1..], current);
    }
  }

  lemma {:induction false} AdoptedNone(keys: seq<Key>, current: map<Key, string>, files: Files, name: string)
    requires forall k :: k in keys ==> Claimed(files, k)
    ensures Adopted(keys, current, files, name) == []
  {
    if keys != [] {
      AdoptedNone(keys[1..], current, files, name);
    }
  }

  lemma MergedKeysAreClaimed(files: Files, key: Key)
    requires key in KeyOrder(CookieLines(Merged(files)))
    ensures Claimed(files, key)
  {
    var lines := CookieLines(Merged(files));
    DictLines(lines);
    MergedReads(files);
    GatheredHas(Sorted(files.Keys), files);
    var c :| c in lines && c.key == key;
    var n :| n in Sorted(files.Keys) && c in CookieLines(files[n]);
    assert key in FileKeys(files[n]);
  }

  lemma ContentIsCurrent(jar: string, files: Files, name: string, c: Cookie)
    requires name in files && c in Content(jar, files, name)
    ensures var current := Dict(CookieLines(Merged(SplitJar(jar, files))));
            c.key in current && c.line == current[c.key]
  {
    ContentHas(jar, files, name, c);
    SomeoneGets(jar, files, c.key);
    WriteBack(jar, files);
  }

  lemma ContentKept(jar: string, files: Files, name: string)
    requires name in files
    ensures var out := SplitJar(jar, files);
            Content(Merged(out), out, name) == Content(jar, files, name)
  {
    var out := SplitJar(jar, files);
    var lines := CookieLines(Merged(out));
    ContentReads(jar, files, name);
    forall c | c in CookieLines(out[name]) ensures c.key in Dict(lines) && c.line == Dict(lines)[c.key] {
      ContentIsCurrent(jar, files, name, c);
    }
    UpdatedSame(CookieLines(out[name]), Dict(lines));
    forall k | k in KeyOrder(lines) ensures Claimed(out, k) {
      MergedKeysAreClaimed(out, k);
    }
    AdoptedNone(KeyOrder(lines), Dict(lines), out, name);
  }

  // Splitting what was just merged changes no file.
  lemma SplitIsAFixedPoint(jar: string, files: Files)
    ensures var out := SplitJar(jar, files);
            SplitJar(Merged(out), out) == out
  {
    var out := SplitJar(jar, files);
    forall name | name in out ensures SplitJar(Merged(out), out)[name] == out[name] {
      ContentKept(jar, files, name);
    }
  }
}
