/** What a Mirror's options may hold, key by key (src/copycast/domain/engine_options.py:71-200). */
module Allowlist {
  import opened Basics
  import opened EngineOptions

  predicate Takes(key: string, v: Value) {
    Accepts(FEED_RULES, Name(key), v)
  }

  predicate WholeNumber(v: Value, low: int, high: int) {
    v.Int? && low <= v.n <= high
  }

  predicate Duration(v: Value, high: int) {
    WholeNumber(v, 0, high) || (v.Float? && 0.0 <= v.x <= high as real)
  }

  predicate ShortText(v: Value, length: nat) {
    v.Str? && v.s != "" && |v.s| <= length
  }

  predicate ShortTexts(v: Value, count: nat, length: nat) {
    v.List? && |v.items| <= count && forall i :: 0 <= i < |v.items| ==> ShortText(v.items[i], length)
  }

  lemma TextsAre(v: Value, count: nat, length: nat)
    ensures AreTexts(v, count, length) <==> ShortTexts(v, count, length)
  {
    if v.List? {
      assert forall i :: 0 <= i < |v.items| ==> v.items[i] in v.items;
    }
  }

  // ------------------------------------------------------------------ the keys

  // Rates: whole bytes per second, one at least.
  lemma RatesTake(v: Value)
    ensures Takes("ratelimit", v) <==> WholeNumber(v, 1, 1000000000000)
    ensures Takes("throttledratelimit", v) <==> WholeNumber(v, 1, 1000000000000)
    ensures Takes("concurrent_fragment_downloads", v) <==> WholeNumber(v, 1, 16)
    ensures Takes("age_limit", v) <==> WholeNumber(v, 0, 99)
  {
  }

  // Pauses: an hour at most; a socket waits ten minutes at most.
  lemma PausesTake(v: Value)
    ensures Takes("sleep_interval", v) <==> Duration(v, 3600)
    ensures Takes("max_sleep_interval", v) <==> Duration(v, 3600)
  {
  }

  lemma OtherPausesTake(v: Value)
    ensures Takes("sleep_interval_requests", v) <==> Duration(v, 3600)
    ensures Takes("sleep_interval_subtitles", v) <==> Duration(v, 3600)
    ensures Takes("socket_timeout", v) <==> Duration(v, 600)
  {
  }

  // Retries: a hundred at most.
  lemma RetriesTake(v: Value)
    ensures Takes("retries", v) <==> WholeNumber(v, 0, 100)
    ensures Takes("fragment_retries", v) <==> WholeNumber(v, 0, 100)
    ensures Takes("extractor_retries", v) <==> WholeNumber(v, 0, 100)
    ensures Takes("file_access_retries", v) <==> WholeNumber(v, 0, 100)
  {
  }

  // Flags: true or false, and nothing that only counts as one.
  lemma FlagsTake(v: Value)
    ensures Takes("format_sort_force", v) <==> v == Bool(true) || v == Bool(false)
    ensures Takes("prefer_free_formats", v) <==> v == Bool(true) || v == Bool(false)
  {
  }

  lemma OtherFlagsTake(v: Value)
    ensures Takes("skip_unavailable_fragments", v) <==> v == Bool(true) || v == Bool(false)
    ensures Takes("writeautomaticsub", v) <==> v == Bool(true) || v == Bool(false)
    ensures Takes("geo_bypass", v) <==> v == Bool(true) || v == Bool(false)
  {
  }

  lemma TextsTake(v: Value)
    ensures Takes("subtitlesformat", v) <==> ShortText(v, 64)
    ensures Takes("geo_bypass_country", v) <==> ShortText(v, 8)
    ensures Takes("geo_bypass_ip_block", v) <==> ShortText(v, 64)
  {
  }

  lemma ListsTake(v: Value)
    ensures Takes("format_sort", v) <==> ShortTexts(v, 32, 64)
    ensures Takes("subtitleslangs", v) <==>
            ShortTexts(v, 32, 64) && forall i :: 0 <= i < |v.items| ==> IsLanguage(v.items[i].s)
    ensures Takes("extractor_args", v) <==> v.Table?
  {
    TextsAre(v, 32, 64);
    if v.List? {
      assert forall i :: 0 <= i < |v.items| ==> v.items[i] in v.items;
    }
  }

  // No other key is taken, whatever its value; nor one that is no string.
  lemma NothingElseIsTaken(k: Key, v: Value)
    requires Accepts(FEED_RULES, k, v)
    ensures k.Name? && k.s in {
              "format_sort", "format_sort_force", "prefer_free_formats", "ratelimit", "throttledratelimit",
              "sleep_interval", "max_sleep_interval", "sleep_interval_requests", "sleep_interval_subtitles",
              "retries", "fragment_retries", "extractor_retries", "file_access_retries", "socket_timeout",
              "concurrent_fragment_downloads", "skip_unavailable_fragments", "writeautomaticsub",
              "subtitleslangs", "subtitlesformat", "geo_bypass", "geo_bypass_country", "geo_bypass_ip_block",
              "age_limit", "extractor_args"
            }
  {
  }

  // ------------------------------------------------------------------ the extractors' arguments

  predicate TakesArg(extractor: string, arg: string, v: Value) {
    AcceptsArg(FEED_RULES, Name(extractor), Name(arg), v)
  }

  // Eight arguments of three extractors, each a list of short texts.
  lemma ArgsTake(extractor: string, arg: string, v: Value)
    ensures TakesArg(extractor, arg, v) <==>
            && ShortTexts(v, 16, 64)
            && (|| (extractor == "youtube" && arg in {"lang", "player_client", "player_skip", "skip", "formats"})
                || (extractor == "youtubetab" && arg in {"approximate_date", "skip"})
                || (extractor == "generic" && arg == "impersonate"))
  {
    TextsAre(v, 16, 64);
  }

  // ------------------------------------------------------------------ languages

  predicate Subtag(s: string) {
    1 <= |s| <= 8 && forall i :: 0 <= i < |s| ==> IsAlnum(s[i])
  }

  // The subtags, each followed by `-` or `_` but the last.
  function Subtags(tags: seq<string>, marks: seq<char>): string
    requires |tags| == |marks| + 1
    decreases |tags|
  {
    if |tags| == 1 then tags[0] else tags[0] + [marks[0]] + Subtags(tags[1..], marks[1..])
  }

  ghost predicate IsTagged(s: string, tags: seq<string>, marks: seq<char>) {
    && |tags| == |marks| + 1 && s == Subtags(tags, marks)
    && (forall i :: 0 <= i < |tags| ==> Subtag(tags[i]))
    && (forall i :: 0 <= i < |marks| ==> marks[i] == '-' || marks[i] == '_')
  }

  lemma {:induction false} SubtagsRead(tag: string, rest: string, run: nat)
    requires forall i :: 0 <= i < |tag| ==> IsAlnum(tag[i])
    ensures IsSubtags(tag + rest, run) <==> (tag == "" || run + |tag| <= 8) && IsSubtags(rest, run + |tag|)
    decreases |tag|
  {
    if tag == "" {
      assert tag + rest == rest;
    } else {
      assert (tag + rest)[1..] == tag[1..] + rest && (tag + rest)[0] == tag[0];
      SubtagsRead(tag[1..], rest, run + 1);
    }
  }

  lemma {:induction false} TaggedIsSubtags(s: string, tags: seq<string>, marks: seq<char>)
    requires IsTagged(s, tags, marks)
    ensures IsSubtags(s, 0)
    decreases |tags|
  {
    assert Subtag(tags[0]);
    if |tags| == 1 {
      SubtagsRead(tags[0], "", 0);
      assert tags[0] + "" == tags[0];
    } else {
      var rest := Subtags(tags[1..], marks[1..]);
      TaggedIsSubtags(rest, tags[1..], marks[1..]);
      SubtagsRead(tags[0], [marks[0]] + rest, 0);
      assert ([marks[0]] + rest)[1..] == rest;
      assert tags[0] + [marks[0]] + rest == tags[0] + ([marks[0]] + rest);
    }
  }

  // A language is subtags of one to eight letters or digits, with or without a `-` before them: what
  // is written so is one.
  lemma TagsAreLanguages(s: string, tags: seq<string>, marks: seq<char>)
    requires IsTagged(s, tags, marks)
    ensures IsLanguage(s) && IsLanguage("-" + s)
  {
    TaggedIsSubtags(s, tags, marks);
    assert ("-" + s)[1..] == s;
    assert Subtag(tags[0]) && IsAlnum(tags[0][0]);
    assert s[0] == tags[0][0] && s[0] != '-';
  }

  // One subtag more in front.
  lemma TaggedMore(head: string, mark: char, rest: string, tags: seq<string>, marks: seq<char>)
    requires Subtag(head) && (mark == '-' || mark == '_') && IsTagged(rest, tags, marks)
    ensures IsTagged(head + [mark] + rest, [head] + tags, [mark] + marks)
  {
    assert ([head] + tags)[1..] == tags && ([mark] + marks)[1..] == marks;
  }

  // And nothing else: the subtags of a language, the first of them going on from `head`.
  lemma {:induction false} LanguagesAreTagged(s: string, head: string) returns (tags: seq<string>, marks: seq<char>)
    requires |head| <= 8 && (forall i :: 0 <= i < |head| ==> IsAlnum(head[i])) && IsSubtags(s, |head|)
    ensures IsTagged(head + s, tags, marks)
    decreases |s|
  {
    if s == "" {
      tags, marks := [head], [];
      assert head + s == head;
    } else {
      Regroup(head, [s[0]], s[1..]);
      assert [s[0]] + s[1..] == s;
      if IsAlnum(s[0]) {
        tags, marks := LanguagesAreTagged(s[1..], head + [s[0]]);
      } else {
        tags, marks := LanguagesAreTagged(s[1..], "");
        assert "" + s[1..] == s[1..];
        TaggedMore(head, s[0], s[1..], tags, marks);
        tags, marks := [head] + tags, [s[0]] + marks;
      }
    }
  }

  lemma LanguageHasTags(s: string) returns (tags: seq<string>, marks: seq<char>)
    requires IsLanguage(s)
    ensures IsTagged(s, tags, marks) || (s != "" && s[0] == '-' && IsTagged(s[1..], tags, marks))
  {
    var body := if s != "" && s[0] == '-' then s[1..] else s;
    tags, marks := LanguagesAreTagged(body, "");
    assert "" + body == body;
  }

  // ------------------------------------------------------------------ what is refused

  ghost predicate AllTaken(rules: Rules, data: Options) {
    forall k :: k in data ==>
      && Accepts(rules, k, data[k])
      && (k == Name("extractor_args") && data[k].Table? ==> AllArgsTaken(rules, data[k].entries))
  }

  ghost predicate AllArgsTaken(rules: Rules, v: map<Key, Value>) {
    forall e :: e in v ==>
      && e.Name? && e.s in rules.extractorArgs && v[e].Table?
      && forall a :: a in v[e].entries ==> AcceptsArg(rules, e, a, v[e].entries[a])
  }

  lemma ExtractorRefused(rules: Rules, e: Key, args: Value)
    ensures RefusedOf(rules, e, args) == {} <==>
            && e.Name? && e.s in rules.extractorArgs && args.Table?
            && forall a :: a in args.entries ==> AcceptsArg(rules, e, a, args.entries[a])
  {
    if Known(rules, e, args) {
      assert forall a :: a in args.entries && !AcceptsArg(rules, e, a, args.entries[a]) ==>
               Where(e) + "." + Label(a) in RefusedOf(rules, e, args);
    }
  }

  lemma ArgsRefusedIff(rules: Rules, v: map<Key, Value>)
    ensures RefusedArgs(rules, v) == {} <==> AllArgsTaken(rules, v)
  {
    forall e | e in v
      ensures RefusedOf(rules, e, v[e]) <= RefusedArgs(rules, v)
      ensures RefusedOf(rules, e, v[e]) == {} <==>
              && e.Name? && e.s in rules.extractorArgs && v[e].Table?
              && forall a :: a in v[e].entries ==> AcceptsArg(rules, e, a, v[e].entries[a])
    {
      ExtractorRefused(rules, e, v[e]);
    }
  }

  // Nothing is refused exactly when every option is taken, and every argument of every extractor.
  lemma NothingRefusedIff(rules: Rules, data: Options)
    ensures Refused(rules, data) == {} <==> AllTaken(rules, data)
  {
    forall k | k in data
      ensures RefusedAt(rules, k, data[k]) <= Refused(rules, data)
      ensures RefusedAt(rules, k, data[k]) == {} <==>
              && Accepts(rules, k, data[k])
              && (k == Name("extractor_args") && data[k].Table? ==> AllArgsTaken(rules, data[k].entries))
    {
      if Nested(k, data[k]) {
        ArgsRefusedIff(rules, data[k].entries);
      }
      assert Label(k) in {Label(k)};
    }
  }

  // A refused option is named by its key ...
  lemma RefusedKey(rules: Rules, data: Options, k: string)
    requires Name(k) in data && !Accepts(rules, Name(k), data[Name(k)])
    ensures k in Refused(rules, data)
  {
    assert k in RefusedAt(rules, Name(k), data[Name(k)]);
  }

  // ... and a refused argument by its path.
  lemma RefusedArg(rules: Rules, data: Options, extractor: string, arg: string)
    requires EXTRACTOR_ARGS in data && Accepts(rules, EXTRACTOR_ARGS, data[EXTRACTOR_ARGS])
    requires Arg(data, Name(extractor), Name(arg)).Some? && extractor in rules.extractorArgs
    requires !AcceptsArg(rules, Name(extractor), Name(arg), Arg(data, Name(extractor), Name(arg)).value)
    ensures "extractor_args." + extractor + "." + arg in Refused(rules, data)
  {
    var v := data[EXTRACTOR_ARGS].entries;
    var path := "extractor_args." + extractor + "." + arg;
    assert path in RefusedOf(rules, Name(extractor), v[Name(extractor)]);
    assert path in RefusedArgs(rules, v);
    assert path in RefusedAt(rules, EXTRACTOR_ARGS, data[EXTRACTOR_ARGS]);
  }
}
