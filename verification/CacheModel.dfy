/**
 The Feed cache's values: the entry, its wire form, and the keys of the shared level
 (src/copycast/adapters/api/cache.py). Hashing, compression and JSON are parameters.
 */
module CacheModel {
  import opened Basics
  import opened Decimal

  type Bytes = seq<bv8>

  const NEWLINE: bv8 := 10

  datatype Rendered = Rendered(revision: int, body: Bytes, lastModified: string, contentType: string)

  datatype CachedFeed = CachedFeed(
    revision: int, body: Bytes, etag: string, lastModified: string, contentType: string, gzipBody: Option<Bytes>)

  datatype Header = Header(revision: int, lastModified: string, contentType: string, etag: string, bodyBytes: int)

  // What the cache needs of its libraries: JSON of the header, the digest and gzip.
  datatype Libs = Libs(
    dumps: Header -> Bytes,
    loads: Bytes -> Option<Header>,
    etag: Bytes -> string,
    compress: Bytes -> Bytes)
  {
    // JSON reads back what it wrote and escapes newlines; gzip output is never empty.
    ghost predicate Sound() {
      && (forall h :: loads(dumps(h)) == Some(h))
      && (forall h :: NEWLINE !in dumps(h))
      && (forall b :: compress(b) != [])
    }
  }

  function BuildEntry(libs: Libs, r: Rendered): CachedFeed {
    CachedFeed(r.revision, r.body, libs.etag(r.body), r.lastModified, r.contentType, Some(libs.compress(r.body)))
  }

  // ------------------------------------------------------------------ the wire form

  function HeaderOf(e: CachedFeed): Header {
    Header(e.revision, e.lastModified, e.contentType, e.etag, |e.body|)
  }

  function Encode(libs: Libs, e: CachedFeed): Bytes {
    libs.dumps(HeaderOf(e)) + [NEWLINE] + e.body + e.gzipBody.GetOr([])
  }

  // The position of the first newline, or the length when there is none.
  function FirstNewline(raw: Bytes): (i: nat)
    ensures i <= |raw| && NEWLINE !in raw[..i]
    ensures i < |raw| ==> raw[i] == NEWLINE
  {
    if raw == [] || raw[0] == NEWLINE then 0
    else
      var i := 1 + FirstNewline(raw[1..]);
      assert raw[..i] == [raw[0]] + raw[1..][..i - 1];
      i
  }

  function Decode(libs: Libs, raw: Bytes): Option<CachedFeed> {
    var i := FirstNewline(raw);
    if i == |raw| then None
    else
      var rest := raw[i + 1..];
      match libs.loads(raw[..i])
      case None => None
      case Some(h) =>
        if !(0 <= h.bodyBytes <= |rest|) then None
        else
          var gzip := rest[h.bodyBytes..];
          Some(CachedFeed(h.revision, rest[..h.bodyBytes], h.etag, h.lastModified, h.contentType,
                          if gzip == [] then None else Some(gzip)))
  }

  lemma {:induction false} FirstNewlineAfter(head: Bytes, tail: Bytes)
    requires NEWLINE !in head
    ensures FirstNewline(head + [NEWLINE] + tail) == |head|
  {
    if head != [] {
      assert (head + [NEWLINE] + tail)[1..] == head[1..] + [NEWLINE] + tail;
      FirstNewlineAfter(head[1..], tail);
    }
  }

  lemma NoNewline(raw: Bytes)
    requires NEWLINE !in raw
    ensures FirstNewline(raw) == |raw|
  {
  }

  // Reading an entry cut after k bytes, k past the header: the body must be whole, the gzip
  // body is whatever is left of it.
  lemma DecodeCut(libs: Libs, e: CachedFeed, k: nat)
    requires libs.Sound() && k <= |Encode(libs, e)|
    ensures var start := |libs.dumps(HeaderOf(e))| + 1;
            Decode(libs, Encode(libs, e)[..k]) ==
            if k < start + |e.body| then None
            else
              var gzip := e.gzipBody.GetOr([])[..k - start - |e.body|];
              Some(e.(gzipBody := if gzip == [] then None else Some(gzip)))
  {
    var head := libs.dumps(HeaderOf(e));
    var tail := e.body + e.gzipBody.GetOr([]);
    var raw := Encode(libs, e);
    assert raw == head + [NEWLINE] + tail;
    if k <= |head| {
      assert raw[..k] == head[..k];
      NoNewline(raw[..k]);
    } else {
      var cut := tail[..k - |head| - 1];
      assert raw[..k] == head + [NEWLINE] + cut;
      FirstNewlineAfter(head, cut);
      assert raw[..k][..|head|] == head;
      assert raw[..k][|head| + 1..] == cut;
      if k >= |head| + 1 + |e.body| {
        assert cut[..|e.body|] == e.body;
        assert cut[|e.body|..] == e.gzipBody.GetOr([])[..k - |head| - 1 - |e.body|];
      }
    }
  }

  // The wire form reads back as the entry it came from, newlines in the body and all, exactly
  // unless the entry carries an empty gzip body (which then reads back as none).
  lemma RoundTrip(libs: Libs, e: CachedFeed)
    requires libs.Sound()
    ensures Decode(libs, Encode(libs, e)) == Some(e) <==> e.gzipBody != Some([])
  {
    var raw := Encode(libs, e);
    DecodeCut(libs, e, |raw|);
    assert raw[..|raw|] == raw;
    var gzip := e.gzipBody.GetOr([]);
    assert gzip[..|gzip|] == gzip;
  }

  // A truncated value is refused exactly when the cut falls before the end of the body.
  lemma TruncationRefused(libs: Libs, e: CachedFeed, k: nat)
    requires libs.Sound() && k <= |Encode(libs, e)|
    ensures Decode(libs, Encode(libs, e)[..k]).None? <==> k < |libs.dumps(HeaderOf(e))| + 1 + |e.body|
  {
    DecodeCut(libs, e, k);
  }

  // ------------------------------------------------------------------ keys

  const SHARED_PREFIX := "copycast:feed:"
  const LOCK_PREFIX := "copycast:render:"

  function Signed(n: int): string {
    if n < 0 then "-" + Dec(-n) else Dec(n)
  }

  // `scope` is the release and the namespace, with their separators.
  function Key(prefix: string, scope: string, feed: string, revision: int): string {
    prefix + scope + feed + ":" + Signed(revision)
  }

  // The keys as the shared level holds them.
  lemma KeysAreSpelled(scope: string, feed: string, revision: nat)
    ensures Key(SHARED_PREFIX, scope, feed, revision) == "copycast:feed:" + scope + feed + ":" + Dec(revision)
    ensures Key(LOCK_PREFIX, scope, feed, revision) == "copycast:render:" + scope + feed + ":" + Dec(revision)
  {
  }

  lemma SignedHasNoColon(n: int)
    ensures forall i :: 0 <= i < |Signed(n)| ==> Signed(n)[i] != ':'
  {
  }

  lemma SignedInjective(a: int, b: int)
    requires Signed(a) == Signed(b)
    ensures a == b
  {
    ValueOfDec(if a < 0 then -a else a);
    ValueOfDec(if b < 0 then -b else b);
    assert a < 0 <==> Signed(a)[0] == '-';
    assert b < 0 <==> Signed(b)[0] == '-';
    if a < 0 {
      assert Signed(a)[1..] == Dec(-a) && Signed(b)[1..] == Dec(-b);
    }
  }

  lemma LastColonAt(a: string, x: string)
    requires ':' !in x
    ensures var s := a + ":" + x;
            s[|a|] == ':' && forall i :: |a| < i < |s| ==> s[i] != ':'
  {
    var s := a + ":" + x;
    forall i | |a| < i < |s| ensures s[i] != ':' {
      assert s[i] == x[i - |a| - 1];
    }
  }

  lemma LastColon(a: string, b: string, x: string, y: string)
    requires a + ":" + x == b + ":" + y
    requires ':' !in x && ':' !in y
    ensures a == b && x == y
  {
    var s := a + ":" + x;
    LastColonAt(a, x);
    LastColonAt(b, y);
    assert |a| == |b|;
    assert a == s[..|a|] && b == s[..|b|];
    assert x == s[|a| + 1..] && y == s[|b| + 1..];
  }

  // One key names one Feed at one revision; a lock is never mistaken for a body.
  lemma KeysDistinct(scope: string, feed: string, revision: int, feed': string, revision': int)
    ensures Key(SHARED_PREFIX, scope, feed, revision) == Key(SHARED_PREFIX, scope, feed', revision')
            <==> feed == feed' && revision == revision'
    ensures Key(LOCK_PREFIX, scope, feed, revision) != Key(SHARED_PREFIX, scope, feed', revision')
  {
    var k, k' := Key(SHARED_PREFIX, scope, feed, revision), Key(SHARED_PREFIX, scope, feed', revision');
    if k == k' {
      SignedHasNoColon(revision);
      SignedHasNoColon(revision');
      LastColon(SHARED_PREFIX + scope + feed, SHARED_PREFIX + scope + feed', Signed(revision), Signed(revision'));
      assert feed == (SHARED_PREFIX + scope + feed)[|SHARED_PREFIX + scope|..];
      assert feed' == (SHARED_PREFIX + scope + feed')[|SHARED_PREFIX + scope|..];
      SignedInjective(revision, revision');
    }
    assert Key(LOCK_PREFIX, scope, feed, revision)[9] == 'r' && k'[9] == 'f';
  }
}
