/** `merge_cookie_files` and `split_cookie_jar` as their loops run, proved to compute CookieJar's functions. */
module CookieSplit {
  import opened Basics
  import opened TextOrder
  import opened CookieText
  import opened CookieJar

  lemma GatheredStep(cookies: seq<Cookie>, names: seq<string>, files: Files)
    requires names != [] && forall n :: n in names ==> n in files
    ensures cookies + Gathered(names, files)
         == (cookies + CookieLines(files[names[0]])) + Gathered(names[1..], files)
  {
    var first, rest := CookieLines(files[names[0]]), Gathered(names[1..], files);
    assert Gathered(names, files) == first + rest;
    Regroup(cookies, first, rest);
  }

  method Gather(names: seq<string>, files: Files) returns (cookies: seq<Cookie>)
    requires forall n :: n in names ==> n in files
    ensures cookies == Gathered(names, files)
  {
    cookies := [];
    var rest := names;
    while rest != []
      invariant forall n :: n in rest ==> n in files
      invariant cookies + Gathered(rest, files) == Gathered(names, files)
      decreases |rest|
    {
      var more := ReadCookieLines(files[rest[0]]);
      GatheredStep(cookies, rest, files);
      cookies, rest := cookies + more, rest[1..];
    }
  }

  method MergeCookieFiles(files: Files) returns (jar: string)
    ensures jar == Merged(files)
  {
    var names := SortNames(files.Keys);
    var cookies := Gather(names, files);
    jar := Render(Lines(cookies));
  }

  // `dict(...)` of the cookie lines, with its insertion order.
  method ReadDict(cookies: seq<Cookie>) returns (current: map<Key, string>, order: seq<Key>)
    ensures current == Dict(cookies) && order == KeyOrder(cookies)
  {
    current, order := map[], [];
    for i := 0 to |cookies|
      invariant current == Dict(cookies[..i]) && order == KeyOrder(cookies[..i])
    {
      var c := cookies[i];
      assert cookies[..i + 1][..i] == cookies[..i] && cookies[..i + 1][i] == c;
      if c.key !in order {
        order := order + [c.key];
      }
      current := current[c.key := c.line];
    }
    assert cookies[..|cookies|] == cookies;
  }

  // One file's turn of the first loop: the jar's line for each of its keys, and the keys.
  method KeepCurrent(cookies: seq<Cookie>, current: map<Key, string>) returns (kept: seq<Cookie>, keys: set<Key>)
    ensures kept == Updated(cookies, current) && keys == Keys(cookies)
  {
    kept, keys := [], {};
    var rest := cookies;
    assert Keys(rest) == Keys(cookies);
    while rest != []
      invariant kept + Updated(rest, current) == Updated(cookies, current)
      invariant keys + Keys(rest) == Keys(cookies)
      decreases |rest|
    {
      var key := rest[0].key;
      KeysHead(rest);
      var more := if key in current then [Cookie(key, current[key])] else [];
      assert kept + Updated(rest, current) == (kept + more) + Updated(rest[1..], current);
      kept, keys, rest := kept + more, keys + {key}, rest[1..];
    }
  }

  lemma KeysHead(cookies: seq<Cookie>)
    requires cookies != []
    ensures Keys(cookies) == {cookies[0].key} + Keys(cookies[1..])
  {
    assert cookies == [cookies[0]] + cookies[1..];
  }

  function Domains(keys: set<Key>): set<string> {
    set k | k in keys :: RegistrableDomain(k.domain)
  }

  lemma HoldsIsDomain(text: string, domain: string)
    ensures Holds(text, domain) <==> domain in Domains(FileKeys(text))
  {
  }

  function Pointed(owners: map<string, string>, domains: set<string>, name: string): map<string, string> {
    map d | d in owners.Keys + domains :: if d in domains then name else owners[d]
  }

  lemma PointedMore(owners: map<string, string>, keys: set<Key>, key: Key, name: string)
    ensures Pointed(owners, Domains(keys + {key}), name) ==
            Pointed(owners, Domains(keys), name)[RegistrableDomain(key.domain) := name]
  {
    DomainsAdd(keys, key);
    PointedAdd(owners, Domains(keys), RegistrableDomain(key.domain), name);
  }

  lemma PointedAdd(owners: map<string, string>, domains: set<string>, domain: string, name: string)
    ensures Pointed(owners, domains + {domain}, name) == Pointed(owners, domains, name)[domain := name]
  {
  }

  lemma DomainsAdd(keys: set<Key>, key: Key)
    ensures Domains(keys + {key}) == Domains(keys) + {RegistrableDomain(key.domain)}
  {
  }

  // The owners dict of one file: its domains now point at it.
  method Own(owners: map<string, string>, cookies: seq<Cookie>, name: string) returns (owners': map<string, string>)
    ensures owners' == Pointed(owners, Domains(Keys(cookies)), name)
  {
    owners' := owners;
    for i := 0 to |cookies|
      invariant owners' == Pointed(owners, Domains(Keys(cookies[..i])), name)
    {
      KeysLast(cookies[..i + 1]);
      assert cookies[..i + 1][..i] == cookies[..i];
      PointedMore(owners, Keys(cookies[..i]), cookies[i].key, name);
      owners' := owners'[RegistrableDomain(cookies[i].key.domain) := name];
    }
    assert cookies[..|cookies|] == cookies;
  }

  lemma KeysLast(cookies: seq<Cookie>)
    requires cookies != []
    ensures Keys(cookies) == Keys(cookies[..|cookies| - 1]) + {cookies[|cookies| - 1].key}
  {
    assert cookies == cookies[..|cookies| - 1] + [cookies[|cookies| - 1]];
  }

  // Which file adopts the new keys of each domain: by name in reverse, so the first one wins.
  ghost predicate OwnersOf(owners: map<string, string>, names: seq<string>, files: Files) {
    forall d :: FirstIn(names, Holders(files, d)) == if d in owners then Some(owners[d]) else None
  }

  lemma OwnersStep(
    owners: map<string, string>, owners': map<string, string>, names: seq<string>, files: Files, name: string)
    requires name in files && OwnersOf(owners, names, files)
    requires owners' == Pointed(owners, Domains(FileKeys(files[name])), name)
    ensures OwnersOf(owners', [name] + names, files)
  {
    forall d ensures FirstIn([name] + names, Holders(files, d)) == if d in owners' then Some(owners'[d]) else None {
      HoldsIsDomain(files[name], d);
      assert ([name] + names)[1..] == names;
    }
  }

  lemma OwnersStepAt(
    owners: map<string, string>, owners': map<string, string>, names: seq<string>, i: nat, files: Files)
    requires i < |names| && names[i] in files && OwnersOf(owners, names[i + 1..], files)
    requires owners' == Pointed(owners, Domains(FileKeys(files[names[i]])), names[i])
    ensures OwnersOf(owners', names[i..], files)
  {
    OwnersStep(owners, owners', names[i + 1..], files, names[i]);
    assert names[i..] == [names[i]] + names[i + 1..];
  }

  lemma NoOwners(files: Files)
    ensures OwnersOf(map[], [], files)
  {
  }

  method FindOwners(names: seq<string>, files: Files) returns (owners: map<string, string>)
    requires forall n :: n in names ==> n in files
    ensures OwnersOf(owners, names, files)
  {
    owners := map[];
    var i := |names|;
    assert names[i..] == [];
    NoOwners(files);
    while i > 0
      invariant 0 <= i <= |names|
      invariant OwnersOf(owners, names[i..], files)
    {
      i := i - 1;
      var cookies := ReadCookieLines(files[names[i]]);
      var owners' := Own(owners, cookies, names[i]);
      OwnersStepAt(owners, owners', names, i, files);
      owners := owners';
    }
    assert names[0..] == names;
  }

  lemma {:induction false} AdoptedMore(
    a: seq<Key>, b: seq<Key>, current: map<Key, string>, files: Files, name: string)
    ensures Adopted(a + b, current, files, name) ==
            Adopted(a, current, files, name) + Adopted(b, current, files, name)
  {
    if a == [] {
      assert a + b == b;
    } else {
      assert (a + b)[1..] == a[1..] + b;
      AdoptedMore(a[1..], b, current, files, name);
    }
  }

  lemma OneMoreName(names: seq<string>, i: nat)
    requires i < |names|
    ensures forall n :: n in names[..i + 1] <==> n in names[..i] || n == names[i]
  {
    assert names[..i + 1] == names[..i] + [names[i]];
  }

  // The first loop: every file's own keys, updated, and every key some file held.
  method UpdateAll(names: seq<string>, files: Files, current: map<Key, string>)
    returns (split: map<string, seq<Cookie>>, claimed: set<Key>)
    requires forall n :: n in names ==> n in files
    ensures forall n :: n in split <==> n in names
    ensures forall n :: n in names ==> split[n] == Updated(CookieLines(files[n]), current)
    ensures forall k :: k in claimed <==> exists n :: n in names && k in FileKeys(files[n])
  {
    split, claimed := map[], {};
    for i := 0 to |names|
      invariant forall n :: n in split <==> n in names[..i]
      invariant forall n :: n in names[..i] ==> split[n] == Updated(CookieLines(files[n]), current)
      invariant forall k :: k in claimed <==> exists n :: n in names[..i] && k in FileKeys(files[n])
    {
      var name := names[i];
      var cookies := ReadCookieLines(files[name]);
      var kept, keys := KeepCurrent(cookies, current);
      OneMoreName(names, i);
      split, claimed := split[name := kept], claimed + keys;
    }
    assert names[..|names|] == names;
  }

  // What one key adds to a file's adopted lines.
  ghost function Adopts(key: Key, current: map<Key, string>, files: Files, name: string): seq<Cookie>
    requires key in current
  {
    if !Claimed(files, key) && OwnerOf(files, key) == Some(name) then [Cookie(key, current[key])] else []
  }

  lemma AdoptedOneMore(
    own: seq<Cookie>, before: seq<Cookie>, after: seq<Cookie>,
    order: seq<Key>, i: nat, current: map<Key, string>, files: Files, name: string)
    requires i < |order| && order[i] in current
    requires before == own + Adopted(order[..i], current, files, name)
    requires after == before + Adopts(order[i], current, files, name)
    ensures after == own + Adopted(order[..i + 1], current, files, name)
  {
    assert order[..i + 1] == order[..i] + [order[i]];
    AdoptedMore(order[..i], [order[i]], current, files, name);
    assert [order[i]][1..] == [];
  }

  // The owners dict names the key's owner, a file.
  lemma OwnerIs(files: Files, owners: map<string, string>, key: Key)
    requires OwnersOf(owners, Sorted(files.Keys), files)
    ensures var domain := RegistrableDomain(key.domain);
            && OwnerOf(files, key) == (if domain in owners then Some(owners[domain]) else None)
            && (domain in owners ==> owners[domain] in files)
  {
    var domain := RegistrableDomain(key.domain);
    FirstFound(Sorted(files.Keys), Holders(files, domain));
  }

  method AdoptKey(
    key: Key, current: map<Key, string>, ghost files: Files, claimed: set<Key>, owners: map<string, string>,
    split: map<string, seq<Cookie>>)
    returns (split': map<string, seq<Cookie>>)
    requires key in current && split.Keys == files.Keys
    requires key in claimed <==> Claimed(files, key)
    requires OwnersOf(owners, Sorted(files.Keys), files)
    ensures split'.Keys == files.Keys
    ensures forall n :: n in files ==> split'[n] == split[n] + Adopts(key, current, files, n)
  {
    split' := split;
    var domain := RegistrableDomain(key.domain);
    OwnerIs(files, owners, key);
    if key !in claimed && domain in owners {
      var owner := owners[domain];
      split' := split'[owner := split'[owner] + [Cookie(key, current[key])]];
    }
  }

  lemma AdoptedAllOneMore(
    split: map<string, seq<Cookie>>, before: map<string, seq<Cookie>>, after: map<string, seq<Cookie>>,
    order: seq<Key>, i: nat, current: map<Key, string>, files: Files)
    requires i < |order| && order[i] in current
    requires split.Keys == before.Keys == after.Keys == files.Keys
    requires forall n :: n in files ==> before[n] == split[n] + Adopted(order[..i], current, files, n)
    requires forall n :: n in files ==> after[n] == before[n] + Adopts(order[i], current, files, n)
    ensures forall n :: n in files ==> after[n] == split[n] + Adopted(order[..i + 1], current, files, n)
  {
    forall n | n in files ensures after[n] == split[n] + Adopted(order[..i + 1], current, files, n) {
      AdoptedOneMore(split[n], before[n], after[n], order, i, current, files, n);
    }
  }

  // The last loop: each new key goes to the owner of its domain.
  method AdoptAll(
    order: seq<Key>, current: map<Key, string>, ghost files: Files, claimed: set<Key>, owners: map<string, string>,
    split: map<string, seq<Cookie>>)
    returns (split': map<string, seq<Cookie>>)
    requires forall k :: k in order ==> k in current
    requires split.Keys == files.Keys
    requires forall k :: k in claimed <==> Claimed(files, k)
    requires OwnersOf(owners, Sorted(files.Keys), files)
    ensures split'.Keys == files.Keys
    ensures forall n :: n in files ==> split'[n] == split[n] + Adopted(order, current, files, n)
  {
    split' := split;
    for i := 0 to |order|
      invariant split'.Keys == files.Keys
      invariant forall n :: n in files ==> split'[n] == split[n] + Adopted(order[..i], current, files, n)
    {
      ghost var before := split';
      split' := AdoptKey(order[i], current, files, claimed, owners, split');
      AdoptedAllOneMore(split, before, split', order, i, current, files);
    }
    assert order[..|order|] == order;
  }

  method WriteAll(split: map<string, seq<Cookie>>) returns (out: Files)
    ensures out == map n | n in split :: Render(Lines(split[n]))
  {
    out := map n | n in split :: Render(Lines(split[n]));
  }

  lemma ClaimedBySome(claimed: set<Key>, names: seq<string>, files: Files)
    requires forall n :: n in names <==> n in files
    requires forall k :: k in claimed <==> exists n :: n in names && k in FileKeys(files[n])
    ensures forall k :: k in claimed <==> Claimed(files, k)
  {
  }

  // What each file will hold.
  method Contents(jar: string, files: Files) returns (split: map<string, seq<Cookie>>)
    ensures split.Keys == files.Keys
    ensures forall n :: n in files ==>
              split[n] == Updated(CookieLines(files[n]), Dict(CookieLines(jar)))
                          + Adopted(KeyOrder(CookieLines(jar)), Dict(CookieLines(jar)), files, n)
  {
    var lines := ReadCookieLines(jar);
    var current, order := ReadDict(lines);
    DictLines(lines);
    var names := SortNames(files.Keys);
    var claimed;
    split, claimed := UpdateAll(names, files, current);
    assert split.Keys == files.Keys;
    ClaimedBySome(claimed, names, files);
    var owners := FindOwners(names, files);
    split := AdoptAll(order, current, files, claimed, owners, split);
  }

  method SplitCookieJar(jar: string, files: Files) returns (out: Files)
    ensures out == SplitJar(jar, files)
  {
    var split := Contents(jar, files);
    out := WriteAll(split);
  }
}
