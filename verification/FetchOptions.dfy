/**
 The options of one engine call (src/copycast/adapters/engine/options.py): the operator's, then
 the Mirror's, then what Copycast sets itself.
 */
module FetchOptions {
  import opened Basics
  import opened EngineOptions

  const ENGINE_OWNED := {
    "outtmpl", "outtmpl_na_placeholder", "paths", "download_archive", "progress_hooks",
    "postprocessor_hooks", "post_hooks", "logger", "postprocessors", "format", "extract_flat",
    "writeinfojson", "writethumbnail", "writesubtitles", "skip_download", "simulate", "quiet",
    "noprogress", "daterange", "playlist_items", "noplaylist", "exec", "exec_cmd",
    "external_downloader", "external_downloader_args", "ffmpeg_location", "cookiesfrombrowser",
    "load_info_filename", "batchfile", "daemonize"
  }

  const DIRECT_FORMAT := Str("bestaudio/best")
  const FORMAT := Name("format")
  const OUTTMPL := Name("outtmpl")
  const PATHS := Name("paths")
  const LOGGER := Name("logger")
  const SUBTITLES := Name("subtitleslangs")

  const BASE_OPTIONS: Options := map[
    Name("format") := Str("bestaudio[ext=m4a]/bestaudio/best"),
    Name("postprocessors") := List([]),
    Name("writethumbnail") := Bool(true),
    Name("writeinfojson") := Bool(true),
    Name("clean_infojson") := Bool(true),
    Name("writesubtitles") := Bool(true),
    Name("writeautomaticsub") := Bool(false),
    Name("subtitlesformat") := Str("vtt/srt/best"),
    Name("noplaylist") := Bool(true),
    Name("continuedl") := Bool(true),
    Name("retries") := Int(3),
    Name("fragment_retries") := Int(3),
    Name("socket_timeout") := Int(30),
    Name("noprogress") := Bool(true),
    Name("quiet") := Bool(true),
    Name("no_color") := Bool(true),
    Name("overwrites") := Bool(true),
    Name("allow_playlist_files") := Bool(false)
  ]

  // ------------------------------------------------------------------ filling one argument

  predicate Falsy(v: Value) {
    match v
    case Null => true
    case Bool(b) => !b
    case Int(n) => n == 0
    case Float(x) => x == 0.0
    case NonFinite => false
    case Str(s) => s == ""
    case List(items) => items == []
    case Table(entries) => entries == map[]
  }

  // `dict(options.get(key) or {})`; nothing when the value is no table and not empty either.
  function TableAt(options: map<Key, Value>, k: Key): Option<map<Key, Value>> {
    if k !in options || Falsy(options[k]) then Some(map[])
    else if options[k].Table? then Some(options[k].entries)
    else None
  }

  // Set an extractor's argument unless it is set; nothing where that raises.
  function WithArg(options: Options, e: Key, a: Key, v: Value): Option<Options> {
    var args := TableAt(options, EXTRACTOR_ARGS);
    if args.None? then None
    else
      var inner := TableAt(args.value, e);
      if inner.None? then None
      else if a in inner.value then Some(options)
      else Some(options[EXTRACTOR_ARGS := Table(args.value[e := Table(inner.value[a := v])])])
  }

  function WithLanguage(options: Options, language: Option<string>): Option<Options> {
    if language.None? || language.value == "" then Some(options)
    else WithArg(options, Name("youtube"), Name("lang"), List([Str(language.value)]))
  }

  function WithApproximateDates(options: Options): Option<Options> {
    WithArg(options, Name("youtubetab"), Name("approximate_date"), List([Str("true")]))
  }

  // Only the argument asked for is filled, and only when no layer named it.
  lemma WithArgFills(options: Options, e: Key, a: Key, v: Value)
    requires WithArg(options, e, a, v).Some?
    ensures var r := WithArg(options, e, a, v).value;
            && Arg(r, e, a) == (if Arg(options, e, a).Some? then Arg(options, e, a) else Some(v))
            && (forall e', a' :: (e', a') != (e, a) ==> Arg(r, e', a') == Arg(options, e', a'))
            && (forall k :: k != EXTRACTOR_ARGS ==> (k in r <==> k in options) && (k in r ==> r[k] == options[k]))
  {
    var args := TableAt(options, EXTRACTOR_ARGS).value;
    var inner := TableAt(args, e).value;
    assert forall e', a' :: Arg(options, e', a').Some? ==> e' in args && args[e'].Table?;
  }

  // Neither a table nor anything Python takes for false.
  predicate IsFilled(v: Value) {
    && !v.Table? && v != Null && v != Bool(false) && v != Int(0) && v != Float(0.0) && v != Str("") && v != List([])
  }

  // Filling fails exactly when the arguments, or the extractor's own, are filled with no table.
  lemma WithArgFailsIff(options: Options, e: Key, a: Key, v: Value)
    ensures WithArg(options, e, a, v).None? <==>
            && EXTRACTOR_ARGS in options
            && var args := options[EXTRACTOR_ARGS];
               IsFilled(args) || (args.Table? && e in args.entries && IsFilled(args.entries[e]))
  {
  }

  // ------------------------------------------------------------------ a Feed's engine options

  // `engine_options_for`; `subtitles` are the subtitle languages of the Feed's language.
  function EngineOptionsFor(
    rules: Rules, global: Option<Options>, stored: Option<Options>, subtitles: Value, language: Option<string>)
    : Option<Options>
  {
    var merged := Merged(global, Some(Kept(rules, stored.GetOr(map[]))), None);
    var filled := if SUBTITLES in merged then merged else merged[SUBTITLES := subtitles];
    WithLanguage(filled, language)
  }

  method EngineOptionsForFeed(
    rules: Rules, global: Option<Options>, stored: Option<Options>, subtitles: Value, language: Option<string>)
    returns (options: Option<Options>)
    ensures options == EngineOptionsFor(rules, global, stored, subtitles, language)
  {
    var kept, refused := SanitizeFeed(rules, stored);
    var merged := Merge(global, Some(kept), None);
    if SUBTITLES !in merged {
      merged := merged[SUBTITLES := subtitles];
    }
    options := WithLanguage(merged, language);
  }

  // The argument the operator's and the Mirror's options give, before any default.
  function Given(rules: Rules, global: Options, stored: Options, e: Key, a: Key): Option<Value> {
    var own := Arg(stored, e, a);
    if own.Some? && AcceptsArg(rules, e, a, own.value) then own else Arg(global, e, a)
  }

  predicate IsLang(e: Key, a: Key) {
    e == Name("youtube") && a == Name("lang")
  }

  // What the operator's and the Mirror's layers give, before the language.
  lemma GivenIsMerged(rules: Rules, global: Option<Options>, stored: Option<Options>, e: Key, a: Key)
    requires "extractor_args" in rules.options && rules.options["extractor_args"] == ExtractorArgs
    ensures var merged := Merged(global, Some(Kept(rules, stored.GetOr(map[]))), None);
            Arg(merged, e, a) == Given(rules, global.GetOr(map[]), stored.GetOr(map[]), e, a)
  {
    var kept := Kept(rules, stored.GetOr(map[]));
    LayeredEmpty(global.GetOr(map[]));
    LayeredEmpty(Layered(global.GetOr(map[]), kept));
    SanitizedNeverBlocks(rules, stored.GetOr(map[]), e);
    ArgOfLayered(global.GetOr(map[]), kept, e, a);
    KeptArgIs(rules, stored.GetOr(map[]), e, a);
  }

  lemma SubtitlesAreNoArg(options: Options, subtitles: Value, e: Key, a: Key)
    ensures Arg(options[SUBTITLES := subtitles], e, a) == Arg(options, e, a)
  {
    assert "subtitleslangs"[0] != "extractor_args"[0];
    assert SUBTITLES != EXTRACTOR_ARGS;
  }

  // Every extractor argument of the call is the Mirror's own when the allowlist takes it, else
  // the operator's; the language fills YouTube's only where neither names one.
  lemma ArgsOfTheCall(
    rules: Rules, global: Option<Options>, stored: Option<Options>, subtitles: Value, language: Option<string>,
    e: Key, a: Key)
    requires "extractor_args" in rules.options && rules.options["extractor_args"] == ExtractorArgs
    requires EngineOptionsFor(rules, global, stored, subtitles, language).Some?
    ensures var r := EngineOptionsFor(rules, global, stored, subtitles, language).value;
            var given := Given(rules, global.GetOr(map[]), stored.GetOr(map[]), e, a);
            Arg(r, e, a) == if given.None? && IsLang(e, a) && language.Some? && language.value != ""
                            then Some(List([Str(language.value)])) else given
  {
    var merged := Merged(global, Some(Kept(rules, stored.GetOr(map[]))), None);
    GivenIsMerged(rules, global, stored, e, a);
    SubtitlesAreNoArg(merged, subtitles, e, a);
    var filled := if SUBTITLES in merged then merged else merged[SUBTITLES := subtitles];
    if language.Some? && language.value != "" {
      WithArgFills(filled, Name("youtube"), Name("lang"), List([Str(language.value)]));
    }
  }

  // So no Mirror changes an argument the allowlist does not name: whatever two Mirrors store, the
  // operator's own (a `po_token`, say) reaches the engine alike.
  lemma OperatorKeepsItsOwn(
    rules: Rules, global: Option<Options>, one: Option<Options>, other: Option<Options>,
    subtitles: Value, language: Option<string>, e: Key, a: Key)
    requires "extractor_args" in rules.options && rules.options["extractor_args"] == ExtractorArgs
    requires !(e.Name? && e.s in rules.extractorArgs && a.Name? && a.s in rules.extractorArgs[e.s]) && !IsLang(e, a)
    requires EngineOptionsFor(rules, global, one, subtitles, language).Some?
    requires EngineOptionsFor(rules, global, other, subtitles, language).Some?
    ensures Arg(EngineOptionsFor(rules, global, one, subtitles, language).value, e, a)
         == Arg(global.GetOr(map[]), e, a)
         == Arg(EngineOptionsFor(rules, global, other, subtitles, language).value, e, a)
  {
    ArgsOfTheCall(rules, global, one, subtitles, language, e, a);
    ArgsOfTheCall(rules, global, other, subtitles, language, e, a);
  }

  // The same for every other option: the Mirror's accepted value, else the operator's.
  lemma OptionsOfTheCall(
    rules: Rules, global: Option<Options>, stored: Option<Options>, subtitles: Value, language: Option<string>, k: Key)
    requires EngineOptionsFor(rules, global, stored, subtitles, language).Some?
    requires k != EXTRACTOR_ARGS
    ensures var r := EngineOptionsFor(rules, global, stored, subtitles, language).value;
            var own := stored.GetOr(map[]);
            if k in own && Accepts(rules, k, own[k]) then k in r && r[k] == own[k]
            else if k in global.GetOr(map[]) then k in r && r[k] == global.value[k]
            else if k == SUBTITLES then k in r && r[k] == subtitles
            else k !in r
  {
    var kept := Kept(rules, stored.GetOr(map[]));
    var merged := Merged(global, Some(kept), None);
    LayeredEmpty(global.GetOr(map[]));
    LayeredEmpty(Layered(global.GetOr(map[]), kept));
    assert merged == Layered(global.GetOr(map[]), kept);
    OtherKeysLastWins(global.GetOr(map[]), kept, k);
    var filled := if SUBTITLES in merged then merged else merged[SUBTITLES := subtitles];
    if language.Some? && language.value != "" {
      WithArgFills(filled, Name("youtube"), Name("lang"), List([Str(language.value)]));
    }
  }

  // ------------------------------------------------------------------ a fetch

  function StripOwned(owned: set<string>, options: Option<Options>): Options {
    if options.None? then map[]
    else map k <- options.value | !(k.Name? && k.s in owned) :: options.value[k]
  }

  function MergeOptions(owned: set<string>, base: Options, options: Option<Options>, subtitles: Value): Options {
    var merged := Merged(Some(StripOwned(owned, options)), Some(map[]), None) + base;
    if SUBTITLES in merged then merged else merged[SUBTITLES := subtitles]
  }

  // The params of one fetch; `own` are its output template, paths and, with one, its logger.
  function FetchParams(
    owned: set<string>, base: Options, options: Option<Options>, subtitles: Value, direct: bool,
    outtmpl: Value, paths: Value, logger: Option<Value>): Options
  {
    var params := MergeOptions(owned, base, options, subtitles);
    var formatted := if direct then params[FORMAT := DIRECT_FORMAT] else params;
    var placed := formatted[OUTTMPL := outtmpl][PATHS := paths];
    if logger.Some? then placed[LOGGER := logger.value] else placed
  }

  lemma MergeOptionsAre(owned: set<string>, base: Options, options: Option<Options>, subtitles: Value, k: Key)
    ensures var r := MergeOptions(owned, base, options, subtitles);
            var given := options.GetOr(map[]);
            if k in base then k in r && r[k] == base[k]
            else if k in given && !(k.Name? && k.s in owned) then k in r && r[k] == given[k]
            else if k == SUBTITLES then k in r && r[k] == subtitles
            else k !in r
  {
    var stripped := StripOwned(owned, options);
    LayeredEmpty(stripped);
    assert Merged(Some(stripped), Some(map[]), None) == stripped;
  }

  // Copycast's own values stand whatever the layers below say; nothing it owns comes from them;
  // all the rest passes through.
  lemma FetchParamsAre(
    owned: set<string>, base: Options, options: Option<Options>, subtitles: Value, direct: bool,
    outtmpl: Value, paths: Value, logger: Option<Value>, k: Key)
    ensures var r := FetchParams(owned, base, options, subtitles, direct, outtmpl, paths, logger);
            var given := options.GetOr(map[]);
            if k == LOGGER && logger.Some? then k in r && r[k] == logger.value
            else if k == PATHS then k in r && r[k] == paths
            else if k == OUTTMPL then k in r && r[k] == outtmpl
            else if k == FORMAT && direct then k in r && r[k] == DIRECT_FORMAT
            else if k in base then k in r && r[k] == base[k]
            else if k in given && !(k.Name? && k.s in owned) then k in r && r[k] == given[k]
            else if k == SUBTITLES then k in r && r[k] == subtitles
            else k !in r
  {
    MergeOptionsAre(owned, base, options, subtitles, k);
  }

  // Of the values Copycast sets for every fetch, a direct one changes the format and no other.
  lemma BaseOptionsStand(
    options: Option<Options>, subtitles: Value, direct: bool, outtmpl: Value, paths: Value, logger: Option<Value>,
    k: Key)
    requires k in BASE_OPTIONS
    ensures var r := FetchParams(ENGINE_OWNED, BASE_OPTIONS, options, subtitles, direct, outtmpl, paths, logger);
            k in r && r[k] == if direct && k == FORMAT then DIRECT_FORMAT else BASE_OPTIONS[k]
  {
    assert LOGGER !in BASE_OPTIONS && PATHS !in BASE_OPTIONS && OUTTMPL !in BASE_OPTIONS;
    FetchParamsAre(ENGINE_OWNED, BASE_OPTIONS, options, subtitles, direct, outtmpl, paths, logger, k);
  }

  // Every fetch takes the best audio, one Episode at a time, with its thumbnail, its info and its
  // subtitles, the automatic ones left out.
  lemma FetchTakesAudio(
    options: Option<Options>, subtitles: Value, direct: bool, outtmpl: Value, paths: Value, logger: Option<Value>)
    ensures var r := FetchParams(ENGINE_OWNED, BASE_OPTIONS, options, subtitles, direct, outtmpl, paths, logger);
            && Name("format") in r
            && r[Name("format")] == Str(if direct then "bestaudio/best" else "bestaudio[ext=m4a]/bestaudio/best")
            && Name("noplaylist") in r && r[Name("noplaylist")] == Bool(true)
            && Name("writethumbnail") in r && r[Name("writethumbnail")] == Bool(true)
            && Name("writeinfojson") in r && r[Name("writeinfojson")] == Bool(true)
            && Name("writesubtitles") in r && r[Name("writesubtitles")] == Bool(true)
            && Name("writeautomaticsub") in r && r[Name("writeautomaticsub")] == Bool(false)
            && Name("postprocessors") in r && r[Name("postprocessors")] == List([])
  {
    BaseValues();
    BaseOptionsStand(options, subtitles, direct, outtmpl, paths, logger, Name("format"));
    BaseOptionsStand(options, subtitles, direct, outtmpl, paths, logger, Name("noplaylist"));
    BaseOptionsStand(options, subtitles, direct, outtmpl, paths, logger, Name("writethumbnail"));
    BaseOptionsStand(options, subtitles, direct, outtmpl, paths, logger, Name("writeinfojson"));
    BaseOptionsStand(options, subtitles, direct, outtmpl, paths, logger, Name("writesubtitles"));
    BaseOptionsStand(options, subtitles, direct, outtmpl, paths, logger, Name("writeautomaticsub"));
    BaseOptionsStand(options, subtitles, direct, outtmpl, paths, logger, Name("postprocessors"));
  }

  lemma BaseValues()
    ensures && Name("format") in BASE_OPTIONS
            && BASE_OPTIONS[Name("format")] == Str("bestaudio[ext=m4a]/bestaudio/best")
            && Name("noplaylist") in BASE_OPTIONS && BASE_OPTIONS[Name("noplaylist")] == Bool(true)
            && Name("writethumbnail") in BASE_OPTIONS && BASE_OPTIONS[Name("writethumbnail")] == Bool(true)
            && Name("writeinfojson") in BASE_OPTIONS && BASE_OPTIONS[Name("writeinfojson")] == Bool(true)
            && Name("writesubtitles") in BASE_OPTIONS && BASE_OPTIONS[Name("writesubtitles")] == Bool(true)
            && Name("writeautomaticsub") in BASE_OPTIONS && BASE_OPTIONS[Name("writeautomaticsub")] == Bool(false)
            && Name("postprocessors") in BASE_OPTIONS && BASE_OPTIONS[Name("postprocessors")] == List([])
  {
  }

  // Hooks, commands, paths and formats never come from the layers below: of those keys a fetch holds
  // only what Copycast sets.
  lemma OwnedAreCopycasts(options: Option<Options>, subtitles: Value, key: string)
    requires key in {
               "outtmpl", "outtmpl_na_placeholder", "paths", "download_archive", "progress_hooks",
               "postprocessor_hooks", "post_hooks", "logger", "postprocessors", "format", "extract_flat",
               "writeinfojson", "writethumbnail", "writesubtitles", "skip_download", "simulate", "quiet",
               "noprogress", "daterange", "playlist_items", "noplaylist", "exec", "exec_cmd",
               "external_downloader", "external_downloader_args", "ffmpeg_location", "cookiesfrombrowser",
               "load_info_filename", "batchfile", "daemonize"
             }
    ensures Name(key) in MergeOptions(ENGINE_OWNED, BASE_OPTIONS, options, subtitles) ==> Name(key) in BASE_OPTIONS
  {
    MergeOptionsAre(ENGINE_OWNED, BASE_OPTIONS, options, subtitles, Name(key));
  }

  // ------------------------------------------------------------------ a listing

  const LAZY := Name("lazy_playlist")
  const PLAYLIST_END := Name("playlistend")

  const LISTING_OPTIONS: Options := map[
    Name("extract_flat") := Bool(true),
    Name("lazy_playlist") := Bool(false),
    Name("ignoreerrors") := Str("only_download"),
    Name("skip_download") := Bool(true),
    Name("simulate") := Bool(true),
    Name("writeinfojson") := Bool(false),
    Name("writethumbnail") := Bool(false),
    Name("writesubtitles") := Bool(false),
    Name("writeautomaticsub") := Bool(false),
    Name("allow_playlist_files") := Bool(false),
    Name("postprocessors") := List([]),
    Name("noprogress") := Bool(true),
    Name("quiet") := Bool(true),
    Name("no_color") := Bool(true),
    Name("socket_timeout") := Int(30),
    Name("retries") := Int(3)
  ]

  function ListingParams(
    owned: set<string>, base: Options, options: Option<Options>, limit: Option<int>, logger: Option<Value>)
    : Option<Options>
  {
    var dated := WithApproximateDates(Merged(Some(StripOwned(owned, options)), None, None));
    if dated.None? then None
    else
      var params := dated.value + base;
      var shallow := if limit.Some? then params[LAZY := Bool(true)][PLAYLIST_END := Int(limit.value)] else params;
      Some(if logger.Some? then shallow[LOGGER := logger.value] else shallow)
  }

  predicate IsApproximateDate(e: Key, a: Key) {
    e == Name("youtubetab") && a == Name("approximate_date")
  }

  // A listing asks for approximate dates unless the options say otherwise, and touches no other
  // extractor argument.
  lemma ListingArgs(
    owned: set<string>, base: Options, options: Option<Options>, limit: Option<int>, logger: Option<Value>,
    e: Key, a: Key)
    requires "extractor_args" !in owned && EXTRACTOR_ARGS !in base
    requires EXTRACTOR_ARGS !in {LAZY, PLAYLIST_END, LOGGER}
    requires ListingParams(owned, base, options, limit, logger).Some?
    ensures var given := Arg(options.GetOr(map[]), e, a);
            Arg(ListingParams(owned, base, options, limit, logger).value, e, a)
            == if given.None? && IsApproximateDate(e, a) then Some(List([Str("true")])) else given
  {
    var stripped := StripOwned(owned, options);
    LayeredEmpty(stripped);
    assert Merged(Some(stripped), None, None) == stripped;
    WithArgFills(stripped, Name("youtubetab"), Name("approximate_date"), List([Str("true")]));
    assert Arg(stripped, e, a) == Arg(options.GetOr(map[]), e, a);
  }

  lemma ListingKeysAreApart()
    ensures "extractor_args" !in ENGINE_OWNED && EXTRACTOR_ARGS !in LISTING_OPTIONS
    ensures EXTRACTOR_ARGS !in {LAZY, PLAYLIST_END, LOGGER}
  {
  }

  // So it does with Copycast's own options and keys.
  lemma ListingAsks(options: Option<Options>, limit: Option<int>, logger: Option<Value>, e: Key, a: Key)
    requires ListingParams(ENGINE_OWNED, LISTING_OPTIONS, options, limit, logger).Some?
    ensures var given := Arg(options.GetOr(map[]), e, a);
            Arg(ListingParams(ENGINE_OWNED, LISTING_OPTIONS, options, limit, logger).value, e, a)
            == if given.None? && IsApproximateDate(e, a) then Some(List([Str("true")])) else given
  {
    ListingKeysAreApart();
    ListingArgs(ENGINE_OWNED, LISTING_OPTIONS, options, limit, logger, e, a);
  }

  // ------------------------------------------------------------------ the two lists

  lemma PacingOptionsNotOwned()
    ensures {
      "format_sort", "format_sort_force", "prefer_free_formats", "ratelimit", "throttledratelimit",
      "sleep_interval", "max_sleep_interval", "sleep_interval_requests", "sleep_interval_subtitles"
    } !! ENGINE_OWNED
  {
  }

  lemma RetryOptionsNotOwned()
    ensures {
      "retries", "fragment_retries", "extractor_retries", "file_access_retries", "socket_timeout",
      "concurrent_fragment_downloads", "skip_unavailable_fragments"
    } !! ENGINE_OWNED
  {
  }

  lemma ChoiceOptionsNotOwned()
    ensures {
      "writeautomaticsub", "subtitleslangs", "subtitlesformat", "geo_bypass", "geo_bypass_country",
      "geo_bypass_ip_block", "age_limit", "extractor_args"
    } !! ENGINE_OWNED
  {
  }

  // The two lists are apart: no option of Copycast's own is on the Mirrors' allowlist.
  lemma AllowlistIsNotOwned()
    ensures FEED_RULES.options.Keys !! ENGINE_OWNED
  {
    PacingOptionsNotOwned();
    RetryOptionsNotOwned();
    ChoiceOptionsNotOwned();
  }

  // So stripping takes nothing from a sanitized layer.
  lemma StrippingSparesTheMirror(data: Options)
    ensures StripOwned(ENGINE_OWNED, Some(Kept(FEED_RULES, data))) == Kept(FEED_RULES, data)
  {
    AllowlistIsNotOwned();
    KeptIsNotOwned(FEED_RULES, ENGINE_OWNED, data);
  }

  lemma KeptIsNotOwned(rules: Rules, owned: set<string>, data: Options)
    requires rules.options.Keys !! owned
    ensures StripOwned(owned, Some(Kept(rules, data))) == Kept(rules, data)
  {
  }
}
