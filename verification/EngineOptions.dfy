/**
 Validation and layering of raw yt-dlp options (src/copycast/domain/engine_options.py). A table's
 order plays no part, so it is a map.
 */
module EngineOptions {
  import opened Basics
  import opened TextOrder

  datatype Key = Name(s: string) | OtherKey(repr: string)

  datatype Value =
    | Null
    | Bool(b: bool)
    | Int(n: int)
    | Float(x: real)
    | NonFinite
    | Str(s: string)
    | List(items: seq<Value>)
    | Table(entries: map<Key, Value>)

  type Options = map<Key, Value>

  const EXTRACTOR_ARGS := Name("extractor_args")

  // ------------------------------------------------------------------ the allowlist

  datatype Check =
    | Count(low: int, high: int)
    | Seconds(high: int)
    | Flag
    | Text(length: nat)
    | Texts(count: nat, length: nat)
    | SubtitleLanguages
    | ExtractorArgs

  predicate IsText(v: Value, length: nat) {
    v.Str? && 0 < |v.s| <= length
  }

  predicate AreTexts(v: Value, count: nat, length: nat) {
    v.List? && |v.items| <= count && forall item <- v.items :: IsText(item, length)
  }

  predicate IsAlnum(c: char) {
    '0' <= c <= '9' || 'A' <= c <= 'Z' || 'a' <= c <= 'z'
  }

  // One to eight letters or digits, again after each `-` or `_`; `run` are read so far.
  predicate IsSubtags(s: string, run: nat) {
    if s == "" then 1 <= run <= 8
    else if IsAlnum(s[0]) then run < 8 && IsSubtags(s[1..], run + 1)
    else (s[0] == '-' || s[0] == '_') && run >= 1 && IsSubtags(s[1..], 0)
  }

  predicate IsLanguage(s: string) {
    IsSubtags(if s != "" && s[0] == '-' then s[1..] else s, 0)
  }

  predicate Passes(check: Check, v: Value) {
    match check
    case Count(low, high) => v.Int? && low <= v.n <= high
    case Seconds(high) => (v.Int? && 0 <= v.n <= high) || (v.Float? && 0.0 <= v.x <= high as real)
    case Flag => v.Bool?
    case Text(length) => IsText(v, length)
    case Texts(count, length) => AreTexts(v, count, length)
    case SubtitleLanguages => AreTexts(v, 32, 64) && forall item <- v.items :: item.Str? && IsLanguage(item.s)
    case ExtractorArgs => v.Table?
  }

  datatype Rules = Rules(options: map<string, Check>, extractorArgs: map<string, set<string>>)

  const FEED_RULES := Rules(
    map[
      "format_sort" := Texts(32, 64),
      "format_sort_force" := Flag,
      "prefer_free_formats" := Flag,
      "ratelimit" := Count(1, 1_000_000_000_000),
      "throttledratelimit" := Count(1, 1_000_000_000_000),
      "sleep_interval" := Seconds(3600),
      "max_sleep_interval" := Seconds(3600),
      "sleep_interval_requests" := Seconds(3600),
      "sleep_interval_subtitles" := Seconds(3600),
      "retries" := Count(0, 100),
      "fragment_retries" := Count(0, 100),
      "extractor_retries" := Count(0, 100),
      "file_access_retries" := Count(0, 100),
      "socket_timeout" := Seconds(600),
      "concurrent_fragment_downloads" := Count(1, 16),
      "skip_unavailable_fragments" := Flag,
      "writeautomaticsub" := Flag,
      "subtitleslangs" := SubtitleLanguages,
      "subtitlesformat" := Text(64),
      "geo_bypass" := Flag,
      "geo_bypass_country" := Text(8),
      "geo_bypass_ip_block" := Text(64),
      "age_limit" := Count(0, 99),
      "extractor_args" := ExtractorArgs
    ],
    map[
      "youtube" := {"lang", "player_client", "player_skip", "skip", "formats"},
      "youtubetab" := {"approximate_date", "skip"},
      "generic" := {"impersonate"}
    ])

  // ------------------------------------------------------------------ sanitizing

  function Label(k: Key): string {
    match k
    case Name(s) => s
    case OtherKey(repr) => repr
  }

  function Where(extractor: Key): string {
    "extractor_args." + Label(extractor)
  }

  predicate Accepts(rules: Rules, k: Key, v: Value) {
    k.Name? && k.s in rules.options && Passes(rules.options[k.s], v)
  }

  predicate Known(rules: Rules, extractor: Key, args: Value) {
    extractor.Name? && extractor.s in rules.extractorArgs && args.Table?
  }

  predicate AcceptsArg(rules: Rules, extractor: Key, arg: Key, v: Value) {
    && extractor.Name? && extractor.s in rules.extractorArgs
    && arg.Name? && arg.s in rules.extractorArgs[extractor.s] && AreTexts(v, 16, 64)
  }

  // What one extractor keeps, and what all of them keep: an extractor left with nothing is gone.
  function KeptArgs(rules: Rules, extractor: Key, args: Value): map<Key, Value> {
    if Known(rules, extractor, args)
    then map a <- args.entries | AcceptsArg(rules, extractor, a, args.entries[a]) :: args.entries[a]
    else map[]
  }

  function KeptExtractors(rules: Rules, v: map<Key, Value>): map<Key, Value> {
    map e <- v | KeptArgs(rules, e, v[e]) != map[] :: Table(KeptArgs(rules, e, v[e]))
  }

  function RefusedOf(rules: Rules, extractor: Key, args: Value): set<string> {
    if Known(rules, extractor, args)
    then set a <- args.entries | !AcceptsArg(rules, extractor, a, args.entries[a]) :: Where(extractor) + "." + Label(a)
    else {Where(extractor)}
  }

  function RefusedArgs(rules: Rules, v: map<Key, Value>): set<string> {
    set e <- v, path <- RefusedOf(rules, e, v[e]) :: path
  }

  predicate Nested(k: Key, v: Value) {
    k == EXTRACTOR_ARGS && v.Table?
  }

  // What stays of one accepted option, if anything.
  function KeptValue(rules: Rules, k: Key, v: Value): Option<Value> {
    if !Accepts(rules, k, v) then None
    else if !Nested(k, v) then Some(v)
    else if KeptExtractors(rules, v.entries) == map[] then None
    else Some(Table(KeptExtractors(rules, v.entries)))
  }

  function RefusedAt(rules: Rules, k: Key, v: Value): set<string> {
    if !Accepts(rules, k, v) then {Label(k)} else if Nested(k, v) then RefusedArgs(rules, v.entries) else {}
  }

  function Kept(rules: Rules, data: Options): Options {
    map k <- data | KeptValue(rules, k, data[k]).Some? :: KeptValue(rules, k, data[k]).value
  }

  function Refused(rules: Rules, data: Options): set<string> {
    set k <- data, path <- RefusedAt(rules, k, data[k]) :: path
  }

  lemma RefusedArgsOne(rules: Rules, was: map<Key, Value>, e: Key, args: Value)
    requires e !in was
    ensures RefusedArgs(rules, was[e := args]) == RefusedArgs(rules, was) + RefusedOf(rules, e, args)
  {
    var all := was[e := args];
    assert forall k :: k in was ==> all[k] == was[k];
    forall path | path in RefusedOf(rules, e, args) ensures path in RefusedArgs(rules, all) {
      assert all[e] == args;
    }
  }

  lemma RefusedOne(rules: Rules, was: Options, k: Key, v: Value)
    requires k !in was
    ensures Refused(rules, was[k := v]) == Refused(rules, was) + RefusedAt(rules, k, v)
  {
    var all := was[k := v];
    assert forall j :: j in was ==> all[j] == was[j];
    forall path | path in RefusedAt(rules, k, v) ensures path in Refused(rules, all) {
      assert all[k] == v;
    }
  }

  // The inner loop, over one extractor's arguments.
  method SanitizeArgs(rules: Rules, extractor: Key, args: Value)
    returns (entries: map<Key, Value>, refused: set<string>)
    requires Known(rules, extractor, args)
    ensures entries == KeptArgs(rules, extractor, args) && refused == RefusedOf(rules, extractor, args)
  {
    entries, refused := map[], {};
    var left := args.entries.Keys;
    while left != {}
      invariant left <= args.entries.Keys
      invariant entries == KeptArgs(rules, extractor, Table(args.entries - left))
      invariant refused == RefusedOf(rules, extractor, Table(args.entries - left))
    {
      var arg :| arg in left;
      ghost var was := args.entries - left;
      left := left - {arg};
      assert args.entries - left == was[arg := args.entries[arg]];
      if AcceptsArg(rules, extractor, arg, args.entries[arg]) {
        entries := entries[arg := args.entries[arg]];
      } else {
        refused := refused + {Where(extractor) + "." + Label(arg)};
      }
    }
    assert args.entries - left == args.entries;
  }

  method SanitizeExtractorArgs(rules: Rules, v: map<Key, Value>) returns (kept: map<Key, Value>, refused: set<string>)
    ensures kept == KeptExtractors(rules, v) && refused == RefusedArgs(rules, v)
  {
    kept, refused := map[], {};
    var left := v.Keys;
    while left != {}
      invariant left <= v.Keys
      invariant kept == KeptExtractors(rules, v - left)
      invariant refused == RefusedArgs(rules, v - left)
    {
      var extractor :| extractor in left;
      var args := v[extractor];
      ghost var was := v - left;
      left := left - {extractor};
      assert v - left == was[extractor := args];
      RefusedArgsOne(rules, was, extractor, args);
      if !Known(rules, extractor, args) {
        refused := refused + {Where(extractor)};
      } else {
        var entries, nested := SanitizeArgs(rules, extractor, args);
        refused := refused + nested;
        if entries != map[] {
          kept := kept[extractor := Table(entries)];
        }
      }
    }
    assert v - left == v;
  }

  method SanitizeFeed(rules: Rules, data: Option<Options>) returns (kept: Options, refused: seq<string>)
    ensures kept == Kept(rules, data.GetOr(map[])) && refused == Sorted(Refused(rules, data.GetOr(map[])))
  {
    kept := map[];
    var paths: set<string> := {};
    if data.None? || data.value == map[] {
      return map[], [];
    }
    var v := data.value;
    var left := v.Keys;
    while left != {}
      invariant left <= v.Keys
      invariant kept == Kept(rules, v - left)
      invariant paths == Refused(rules, v - left)
    {
      var key :| key in left;
      ghost var was := v - left;
      left := left - {key};
      assert v - left == was[key := v[key]];
      RefusedOne(rules, was, key, v[key]);
      if !Accepts(rules, key, v[key]) {
        paths := paths + {Label(key)};
      } else if Nested(key, v[key]) {
        var extractorArgs, nested := SanitizeExtractorArgs(rules, v[key].entries);
        paths := paths + nested;
        if extractorArgs != map[] {
          kept := kept[key := Table(extractorArgs)];
        }
      } else {
        kept := kept[key := v[key]];
      }
    }
    assert v - left == v;
    refused := SortNames(paths);
  }

  datatype Validated = Stored(options: Options) | Rejected(keys: seq<string>)

  method ValidateFeed(rules: Rules, data: Option<Options>) returns (r: Validated)
    ensures r.Stored? <==> Refused(rules, data.GetOr(map[])) == {}
    ensures r.Stored? ==> r.options == Kept(rules, data.GetOr(map[]))
    ensures r.Rejected? ==> r.keys == Sorted(Refused(rules, data.GetOr(map[])))
  {
    var kept, refused := SanitizeFeed(rules, data);
    if refused != [] {
      return Rejected(refused);
    }
    assert forall path :: path !in refused;
    return Stored(kept);
  }

  // ------------------------------------------------------------------ sanitized stays sanitized

  lemma KeptArgsTwice(rules: Rules, e: Key, args: Value)
    ensures KeptArgs(rules, e, Table(KeptArgs(rules, e, args))) == KeptArgs(rules, e, args)
    ensures KeptArgs(rules, e, args) != map[] ==> RefusedOf(rules, e, Table(KeptArgs(rules, e, args))) == {}
  {
  }

  lemma KeptExtractorsTwice(rules: Rules, v: map<Key, Value>)
    ensures KeptExtractors(rules, KeptExtractors(rules, v)) == KeptExtractors(rules, v)
    ensures RefusedArgs(rules, KeptExtractors(rules, v)) == {}
  {
    forall e | e in v {
      KeptArgsTwice(rules, e, v[e]);
    }
  }

  lemma KeptValueTwice(rules: Rules, k: Key, v: Value)
    requires KeptValue(rules, k, v).Some?
    ensures var w := KeptValue(rules, k, v).value;
            KeptValue(rules, k, w) == Some(w) && RefusedAt(rules, k, w) == {}
  {
    if Nested(k, v) {
      KeptExtractorsTwice(rules, v.entries);
    }
  }

  // Sanitizing sanitized options keeps them as they are and refuses nothing.
  lemma SanitizedStays(rules: Rules, data: Options)
    ensures Kept(rules, Kept(rules, data)) == Kept(rules, data)
    ensures Refused(rules, Kept(rules, data)) == {}
  {
    forall k | k in Kept(rules, data)
      ensures KeptValue(rules, k, Kept(rules, data)[k]) == Some(Kept(rules, data)[k])
      ensures RefusedAt(rules, k, Kept(rules, data)[k]) == {}
    {
      KeptValueTwice(rules, k, data[k]);
    }
  }

  // The value a layer gives an extractor's argument, if it names it.
  function Arg(options: Options, e: Key, a: Key): Option<Value> {
    if EXTRACTOR_ARGS in options && options[EXTRACTOR_ARGS].Table?
       && e in options[EXTRACTOR_ARGS].entries && options[EXTRACTOR_ARGS].entries[e].Table?
       && a in options[EXTRACTOR_ARGS].entries[e].entries
    then Some(options[EXTRACTOR_ARGS].entries[e].entries[a])
    else None
  }

  // What sanitizing keeps, argument by argument: exactly what the allowlist takes, unchanged.
  lemma KeptArgIs(rules: Rules, data: Options, e: Key, a: Key)
    requires "extractor_args" in rules.options && rules.options["extractor_args"] == ExtractorArgs
    ensures Arg(Kept(rules, data), e, a)
         == var v := Arg(data, e, a); if v.Some? && AcceptsArg(rules, e, a, v.value) then v else None
  {
    if EXTRACTOR_ARGS in data && data[EXTRACTOR_ARGS].Table? {
      var v := data[EXTRACTOR_ARGS].entries;
      assert KeptValue(rules, EXTRACTOR_ARGS, data[EXTRACTOR_ARGS])
          == if KeptExtractors(rules, v) == map[] then None else Some(Table(KeptExtractors(rules, v)));
      if e in v && v[e].Table? && a in v[e].entries && AcceptsArg(rules, e, a, v[e].entries[a]) {
        assert a in KeptArgs(rules, e, v[e]);
        assert e in KeptExtractors(rules, v);
      }
    }
  }

  // ------------------------------------------------------------------ layering

  function MergedArgs(below: map<Key, Value>, above: map<Key, Value>): map<Key, Value> {
    map e <- below.Keys + above.Keys ::
      if e !in above then below[e]
      else if e in below && below[e].Table? && above[e].Table? then Table(below[e].entries + above[e].entries)
      else above[e]
  }

  function Layered(below: Options, layer: Options): Options {
    map k <- below.Keys + layer.Keys ::
      if k !in layer then below[k]
      else if k == EXTRACTOR_ARGS && k in below && below[k].Table? && layer[k].Table?
        then Table(MergedArgs(below[k].entries, layer[k].entries))
      else layer[k]
  }

  method MergeExtractorArgs(below: map<Key, Value>, above: map<Key, Value>) returns (merged: map<Key, Value>)
    ensures merged == MergedArgs(below, above)
  {
    merged := below;
    var left := above.Keys;
    while left != {}
      invariant left <= above.Keys
      invariant merged == MergedArgs(below, above - left)
    {
      var extractor :| extractor in left;
      ghost var was := above - left;
      left := left - {extractor};
      assert above - left == was[extractor := above[extractor]];
      assert extractor in merged <==> extractor in below;
      if extractor in merged && merged[extractor].Table? && above[extractor].Table? {
        merged := merged[extractor := Table(merged[extractor].entries + above[extractor].entries)];
      } else {
        merged := merged[extractor := above[extractor]];
      }
    }
    assert above - left == above;
  }

  method MergeLayer(below: Options, layer: Options) returns (merged: Options)
    ensures merged == Layered(below, layer)
  {
    merged := below;
    var left := layer.Keys;
    while left != {}
      invariant left <= layer.Keys
      invariant merged == Layered(below, layer - left)
    {
      var key :| key in left;
      ghost var was := layer - left;
      left := left - {key};
      assert layer - left == was[key := layer[key]];
      if key == EXTRACTOR_ARGS && key in merged && merged[key].Table? && layer[key].Table? {
        var args := MergeExtractorArgs(merged[key].entries, layer[key].entries);
        merged := merged[key := Table(args)];
      } else {
        merged := merged[key := layer[key]];
      }
    }
    assert layer - left == layer;
  }

  function Merged(global: Option<Options>, feed: Option<Options>, base: Option<Options>): Options {
    Layered(Layered(Layered(map[], global.GetOr(map[])), feed.GetOr(map[])), base.GetOr(map[]))
  }

  method Merge(global: Option<Options>, feed: Option<Options>, base: Option<Options>) returns (merged: Options)
    ensures merged == Merged(global, feed, base)
  {
    merged := map[];
    var layers := [global, feed, base];
    for i := 0 to 3
      invariant i == 0 ==> merged == map[]
      invariant i == 1 ==> merged == Layered(map[], global.GetOr(map[]))
      invariant i == 2 ==> merged == Layered(Layered(map[], global.GetOr(map[])), feed.GetOr(map[]))
      invariant i == 3 ==> merged == Merged(global, feed, base)
    {
      LayeredEmpty(merged);
      if layers[i].Some? && layers[i].value != map[] {
        merged := MergeLayer(merged, layers[i].value);
      }
    }
  }

  lemma LayeredEmpty(options: Options)
    ensures Layered(options, map[]) == options && Layered(map[], options) == options
  {
  }

  // A layer that names an extractor with something that is no table replaces it whole.
  predicate Blocks(layer: Options, e: Key) {
    && EXTRACTOR_ARGS in layer
    && (!layer[EXTRACTOR_ARGS].Table?
        || (e in layer[EXTRACTOR_ARGS].entries && !layer[EXTRACTOR_ARGS].entries[e].Table?))
  }

  // The last layer naming an argument gives it, exactly when no later one replaces its extractor.
  lemma LastLayerWinsIff(below: Options, layer: Options, e: Key, a: Key)
    ensures var merged := Arg(Layered(below, layer), e, a);
            merged == (if Arg(layer, e, a).Some? then Arg(layer, e, a) else Arg(below, e, a))
            <==> (!Blocks(layer, e) || Arg(below, e, a).None?)
  {
  }

  // What a layer leaves of an argument, whatever is below.
  lemma ArgOfLayered(below: Options, layer: Options, e: Key, a: Key)
    ensures Arg(Layered(below, layer), e, a) ==
            if Arg(layer, e, a).Some? then Arg(layer, e, a) else if Blocks(layer, e) then None else Arg(below, e, a)
  {
  }

  // Of all three layers: the last one naming the argument gives it, exactly unless a later one
  // that does not name it replaces its extractor.
  lemma LastOfThreeWinsIff(global: Option<Options>, feed: Option<Options>, base: Option<Options>, e: Key, a: Key)
    ensures var g, f, b := global.GetOr(map[]), feed.GetOr(map[]), base.GetOr(map[]);
            var last := if Arg(b, e, a).Some? then Arg(b, e, a)
                        else if Arg(f, e, a).Some? then Arg(f, e, a) else Arg(g, e, a);
            Arg(Merged(global, feed, base), e, a) == last
            <==> || Arg(b, e, a).Some?
                 || (Arg(f, e, a).Some? && !Blocks(b, e))
                 || (Arg(f, e, a).None? && (Arg(g, e, a).None? || (!Blocks(f, e) && !Blocks(b, e))))
  {
    var g, f, b := global.GetOr(map[]), feed.GetOr(map[]), base.GetOr(map[]);
    LayeredEmpty(g);
    ArgOfLayered(g, f, e, a);
    ArgOfLayered(Layered(g, f), b, e, a);
  }

  lemma OtherKeysLastWins(below: Options, layer: Options, k: Key)
    requires k != EXTRACTOR_ARGS
    ensures k in Layered(below, layer) <==> k in below || k in layer
    ensures k in Layered(below, layer) ==> Layered(below, layer)[k] == if k in layer then layer[k] else below[k]
  {
  }

  // A sanitized layer never replaces an extractor, whatever the Mirror's stored row holds.
  lemma SanitizedNeverBlocks(rules: Rules, data: Options, e: Key)
    requires "extractor_args" in rules.options && rules.options["extractor_args"] == ExtractorArgs
    ensures !Blocks(Kept(rules, data), e)
  {
  }
}
