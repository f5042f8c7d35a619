/**
  cli.rs: combining the `-q LANGUAGE QUERY` pairs into one query per
  language, the `--format` names, the defaults of the numeric options, the
  one-path rule of `--show-tree`, and the choice of what to do.
 */
module Cli {
  import opened Wrappers
  import opened Errors
  import opened Decimal
  import opened Paths
  import opened Language
  import opened Engine
  import Ex = Extractor

  // ---- combining queries --------------------------------------------------

  /** `Itertools::tuples` on the flat `-q` values: consecutive pairs, an odd last value dropped. */
  function Pairs(values: seq<string>): (r: seq<(string, string)>)
    ensures |r| == |values| / 2
    ensures forall i :: 0 <= i < |r| ==> r[i] == (values[2 * i], values[2 * i + 1])
  {
    if |values| < 2 then []
    else
      var rest := Pairs(values[2..]);
      assert forall i :: 0 <= i < |rest| ==> values[2..][2 * i] == values[2 * (i + 1)];
      [(values[0], values[1])] + rest
  }

  const CAPTURE_ALL: string := "@query"

  /** A query that declares no capture gets `@query` appended, so each of its matches is still reported. */
  function QueryOut(rawQuery: string, info: QueryInfo): string
  {
    if |info.captureNames| == 0 then rawQuery + CAPTURE_ALL else rawQuery
  }

  /** The query text one pair adds to its language, or the error of resolving or compiling it alone. */
  function Resolve(reg: Registry, pair: (string, string)): Outcome<(Language, string)>
  {
    match WithContext(reg.fromStr(pair.0), "could not parse language")
    case Err(e) => Err(e)
    case Ok(lang) =>
      match WithContext(reg.parseQuery(lang, pair.1), "could not parse query")
      case Err(e) => Err(e)
      case Ok(info) => Ok((lang, QueryOut(pair.1, info)))
  }

  /** One turn of the first loop of `extractors`: append to the language's text, or insert it. */
  function Step(m: map<Language, string>, lang: Language, out: string): map<Language, string>
  {
    if lang in m then m[lang := m[lang] + out] else m[lang := out]
  }

  /** The per-language query texts after the first loop of `extractors` has consumed `pairs`. */
  function CombineQueries(reg: Registry, pairs: seq<(string, string)>): Outcome<map<Language, string>>
  {
    if pairs == [] then Ok(map[])
    else
      match CombineQueries(reg, pairs[..|pairs| - 1])
      case Err(e) => Err(e)
      case Ok(m) =>
        match Resolve(reg, pairs[|pairs| - 1])
        case Err(e) => Err(e)
        case Ok((lang, out)) => Ok(Step(m, lang, out))
  }

  /** Reference definition: the query texts the pairs give `lang`, in command-line order. */
  function QueriesFor(reg: Registry, pairs: seq<(string, string)>, lang: Language): string
    requires forall i :: 0 <= i < |pairs| ==> Resolve(reg, pairs[i]).Ok?
  {
    if pairs == [] then ""
    else
      var (l, out) := Resolve(reg, pairs[0]).value;
      (if l == lang then out else "") + QueriesFor(reg, pairs[1..], lang)
  }

  /** The languages the pairs name. */
  function LanguagesOf(reg: Registry, pairs: seq<(string, string)>): set<Language>
    requires forall i :: 0 <= i < |pairs| ==> Resolve(reg, pairs[i]).Ok?
  {
    set i | 0 <= i < |pairs| :: Resolve(reg, pairs[i]).value.0
  }

  lemma {:induction false} QueriesForSnoc(reg: Registry, pairs: seq<(string, string)>, p: (string, string), lang: Language)
    requires forall i :: 0 <= i < |pairs| ==> Resolve(reg, pairs[i]).Ok?
    requires Resolve(reg, p).Ok?
    ensures forall i :: 0 <= i < |pairs + [p]| ==> Resolve(reg, (pairs + [p])[i]).Ok?
    ensures QueriesFor(reg, pairs + [p], lang) ==
      QueriesFor(reg, pairs, lang) + (if Resolve(reg, p).value.0 == lang then Resolve(reg, p).value.1 else "")
  {
    assert forall i :: 0 <= i < |pairs + [p]| ==> Resolve(reg, (pairs + [p])[i]).Ok?;
    if pairs != [] {
      assert (pairs + [p])[1..] == pairs[1..] + [p];
      QueriesForSnoc(reg, pairs[1..], p, lang);
    } else {
      assert pairs + [p] == [p];
    }
  }

  /** The first loop of `extractors` succeeds exactly when every pair resolves and compiles alone. */
  lemma {:induction false} CombineOk(reg: Registry, pairs: seq<(string, string)>)
    ensures CombineQueries(reg, pairs).Ok? <==> forall i :: 0 <= i < |pairs| ==> Resolve(reg, pairs[i]).Ok?
  {
    if pairs != [] {
      var init := pairs[..|pairs| - 1];
      CombineOk(reg, init);
      assert forall i :: 0 <= i < |init| ==> init[i] == pairs[i];
    }
  }

  /**
    When it succeeds, it holds one text per language named: that language's
    queries concatenated in command-line order.
   */
  lemma {:induction false} CombineContents(reg: Registry, pairs: seq<(string, string)>)
    requires forall i :: 0 <= i < |pairs| ==> Resolve(reg, pairs[i]).Ok?
    ensures CombineQueries(reg, pairs).Ok?
    ensures CombineQueries(reg, pairs).value.Keys == LanguagesOf(reg, pairs)
    ensures forall l :: l in CombineQueries(reg, pairs).value ==>
      CombineQueries(reg, pairs).value[l] == QueriesFor(reg, pairs, l)
  {
    CombineOk(reg, pairs);
    if pairs != [] {
      var init, p := pairs[..|pairs| - 1], pairs[|pairs| - 1];
      assert pairs == init + [p];
      assert forall i :: 0 <= i < |init| ==> init[i] == pairs[i];
      CombineContents(reg, init);
      var m := CombineQueries(reg, init).value;
      var (lang, out) := Resolve(reg, p).value;
      assert CombineQueries(reg, pairs).value == Step(m, lang, out);
      forall l | l in Step(m, lang, out) ensures Step(m, lang, out)[l] == QueriesFor(reg, pairs, l) {
        QueriesForSnoc(reg, init, p, l);
        if l !in m {
          QueriesForAbsent(reg, init, l);
        }
      }
      LanguagesSnoc(reg, init, p);
    }
  }

  lemma LanguagesSnoc(reg: Registry, init: seq<(string, string)>, p: (string, string))
    requires forall i :: 0 <= i < |init| ==> Resolve(reg, init[i]).Ok?
    requires Resolve(reg, p).Ok?
    ensures forall i :: 0 <= i < |init + [p]| ==> Resolve(reg, (init + [p])[i]).Ok?
    ensures LanguagesOf(reg, init + [p]) == LanguagesOf(reg, init) + {Resolve(reg, p).value.0}
  {
    var pairs := init + [p];
    assert forall i :: 0 <= i < |init| ==> pairs[i] == init[i];
    assert pairs[|init|] == p;
    forall l | l in LanguagesOf(reg, pairs) ensures l in LanguagesOf(reg, init) + {Resolve(reg, p).value.0} {
      var i :| 0 <= i < |pairs| && Resolve(reg, pairs[i]).value.0 == l;
    }
  }

  /** When it fails, it fails with the error of the first pair that does not resolve or compile. */
  lemma {:induction false} CombineFirstError(reg: Registry, pairs: seq<(string, string)>)
    requires CombineQueries(reg, pairs).Err?
    ensures exists i :: (0 <= i < |pairs|
      && (forall j :: 0 <= j < i ==> Resolve(reg, pairs[j]).Ok?)
      && Resolve(reg, pairs[i]) == Err(CombineQueries(reg, pairs).error))
  {
    var init := pairs[..|pairs| - 1];
    assert forall i :: 0 <= i < |init| ==> init[i] == pairs[i];
    if CombineQueries(reg, init).Err? {
      CombineFirstError(reg, init);
      var i :| 0 <= i < |init| && (forall j :: 0 <= j < i ==> Resolve(reg, init[j]).Ok?)
        && Resolve(reg, init[i]) == Err(CombineQueries(reg, init).error);
      assert Resolve(reg, pairs[i]) == Err(CombineQueries(reg, pairs).error);
    } else {
      CombineOk(reg, init);
      assert Resolve(reg, pairs[|init|]) == Err(CombineQueries(reg, pairs).error);
    }
  }

  lemma {:induction false} QueriesForAbsent(reg: Registry, pairs: seq<(string, string)>, lang: Language)
    requires forall i :: 0 <= i < |pairs| ==> Resolve(reg, pairs[i]).Ok?
    requires lang !in LanguagesOf(reg, pairs)
    ensures QueriesFor(reg, pairs, lang) == ""
  {
    if pairs != [] {
      assert Resolve(reg, pairs[0]).value.0 in LanguagesOf(reg, pairs);
      assert LanguagesOf(reg, pairs[1..]) <= LanguagesOf(reg, pairs) by {
        forall l | l in LanguagesOf(reg, pairs[1..]) ensures l in LanguagesOf(reg, pairs) {
          var i :| 0 <= i < |pairs[1..]| && Resolve(reg, pairs[1..][i]).value.0 == l;
          assert pairs[1..][i] == pairs[i + 1];
        }
      }
      QueriesForAbsent(reg, pairs[1..], lang);
    }
  }

  /** Once a prefix of the pairs fails, the whole loop fails with that error. */
  lemma {:induction false} CombineErrorPersists(reg: Registry, pairs: seq<(string, string)>, i: nat)
    requires i <= |pairs| && CombineQueries(reg, pairs[..i]).Err?
    ensures CombineQueries(reg, pairs) == CombineQueries(reg, pairs[..i])
    decreases |pairs| - i
  {
    if i < |pairs| {
      assert pairs[..i + 1][..i] == pairs[..i];
      CombineErrorPersists(reg, pairs, i + 1);
    } else {
      assert pairs[..i] == pairs;
    }
  }

  /**
    Giving the same pair twice is not deduplicated: the language's query text
    is the pair's text twice, so each match is reported twice.
   */
  lemma SamePairTwice(reg: Registry, p: (string, string))
    requires Resolve(reg, p).Ok?
    ensures var (lang, out) := Resolve(reg, p).value;
      CombineQueries(reg, [p, p]) == Ok(map[lang := out + out])
  {
    assert [p, p][..1] == [p];
    assert [p][..0] == [];
    var (lang, out) := Resolve(reg, p).value;
    assert CombineQueries(reg, []) == Ok(map[]);
    assert CombineQueries(reg, [p]) == Ok(Step(map[], lang, out));
    assert Step(map[], lang, out) == map[lang := out];
    assert CombineQueries(reg, [p, p]) == Ok(Step(map[lang := out], lang, out));
    assert map[lang := out][lang := out + out] == map[lang := out + out];
  }

  /** The first pattern carrying a general predicate, by its first operator. */
  function FirstPredicate(predicates: seq<seq<string>>): (r: Option<string>)
    ensures r.None? <==> forall i :: 0 <= i < |predicates| ==> predicates[i] == []
    ensures r.Some? ==> exists i :: (0 <= i < |predicates| && predicates[i] != [] && r.value == predicates[i][0]
      && forall j :: 0 <= j < i ==> predicates[j] == [])
  {
    if predicates == [] then None
    else if predicates[0] != [] then Some(predicates[0][0])
    else
      var r := FirstPredicate(predicates[1..]);
      assert forall i :: 0 < i < |predicates| ==> predicates[i] == predicates[1..][i - 1];
      r
  }

  function UnknownPredicate(op: string): Error
  {
    Fail("Unknown predicate '" + op + "'")
  }

  /** The second loop's check of one language: compile its combined text and refuse general predicates. */
  function FinalCheck(reg: Registry, lang: Language, text: string): Outcome<QueryInfo>
  {
    match WithContext(reg.parseQuery(lang, text), "could not parse combined query")
    case Err(e) => Err(e)
    case Ok(info) =>
      match FirstPredicate(info.generalPredicates)
      case Some(op) => Err(UnknownPredicate(op))
      case None => Ok(info)
  }

  /** The extractor `Extractor::new` builds from a freshly compiled query. */
  function ExtractorFor(lang: Language, info: QueryInfo): Ex.Extractor
  {
    Ex.Extractor(lang, Compile(info).(disabled := Ex.HelperNames(info.captureNames)), info.captureNames)
  }

  /** `out` holds, in some order, one extractor for each language of `done` and no other. */
  ghost predicate Built(reg: Registry, m: map<Language, string>, done: set<Language>, out: seq<Ex.Extractor>)
  {
    && done <= m.Keys
    && |out| == |done|
    && (forall i, j :: 0 <= i < j < |out| ==> out[i].language != out[j].language)
    && (forall i :: 0 <= i < |out| ==> out[i].language in done)
    && (forall l :: l in done ==> FinalCheck(reg, l, m[l]).Ok?)
    && (forall i :: 0 <= i < |out| ==> out[i] == ExtractorFor(out[i].language, FinalCheck(reg, out[i].language, m[out[i].language]).value))
  }

  const NO_QUERIES: string :=
    "queries were required but not provided. This indicates an internal error and you should report it!"

  /**
    `Invocation::extractors`: fold the pairs into one text per language, then
    compile each combined text, refuse general predicates, and build one
    extractor per language. The languages are visited in the map's order,
    which is unspecified: the order of the result, and which error a failing
    call reports when several languages fail, are left open.
   */
  method Extractors(reg: Registry, values: Option<seq<string>>) returns (r: Outcome<seq<Ex.Extractor>>)
    ensures values.None? ==> r == Err(Fail(NO_QUERIES))
    ensures values.Some? && CombineQueries(reg, Pairs(values.value)).Err? ==>
      r == Err(CombineQueries(reg, Pairs(values.value)).error)
    ensures values.Some? && CombineQueries(reg, Pairs(values.value)).Ok? ==>
      var m := CombineQueries(reg, Pairs(values.value)).value;
      && (r.Ok? <==> forall l :: l in m ==> FinalCheck(reg, l, m[l]).Ok?)
      && (r.Err? ==> exists l :: l in m && FinalCheck(reg, l, m[l]) == Err(r.error))
      && (r.Ok? ==> Built(reg, m, m.Keys, r.value))
  {
    if values.None? {
      return Err(Fail(NO_QUERIES));
    }
    var pairs := Pairs(values.value);
    var queryStrings: map<Language, string> := map[];
    for i := 0 to |pairs|
      invariant CombineQueries(reg, pairs[..i]) == Ok(queryStrings)
    {
      assert pairs[..i + 1][..i] == pairs[..i];
      var (rawLang, rawQuery) := pairs[i];
      var lang := WithContext(reg.fromStr(rawLang), "could not parse language");
      if lang.Err? {
        assert CombineQueries(reg, pairs[..i + 1]) == Err(lang.error);
        CombineErrorPersists(reg, pairs, i + 1);
        return Err(lang.error);
      }
      var queryOut := rawQuery;
      var tempQuery := WithContext(reg.parseQuery(lang.value, rawQuery), "could not parse query");
      if tempQuery.Err? {
        assert CombineQueries(reg, pairs[..i + 1]) == Err(tempQuery.error);
        CombineErrorPersists(reg, pairs, i + 1);
        return Err(tempQuery.error);
      }
      if |tempQuery.value.captureNames| == 0 {
        queryOut := queryOut + CAPTURE_ALL;
      }
      assert Resolve(reg, pairs[i]) == Ok((lang.value, queryOut));
      assert CombineQueries(reg, pairs[..i + 1]) == Ok(Step(queryStrings, lang.value, queryOut));
      if lang.value in queryStrings {
        queryStrings := queryStrings[lang.value := queryStrings[lang.value] + queryOut];
      } else {
        queryStrings := queryStrings[lang.value := queryOut];
      }
    }
    assert pairs[..|pairs|] == pairs;
    assert CombineQueries(reg, Pairs(values.value)) == Ok(queryStrings);

    r := BuildExtractors(reg, queryStrings);
  }

  /** The step of the second loop: a language whose combined text checks out joins the built set. */
  lemma BuiltStep(reg: Registry, m: map<Language, string>, done: set<Language>, out: seq<Ex.Extractor>, lang: Language, e: Ex.Extractor)
    requires Built(reg, m, done, out)
    requires lang in m && lang !in done
    requires FinalCheck(reg, lang, m[lang]).Ok? && e == ExtractorFor(lang, FinalCheck(reg, lang, m[lang]).value)
    ensures Built(reg, m, done + {lang}, out + [e])
  {
    assert |done + {lang}| == |done| + 1;
    var out' := out + [e];
    assert forall i :: 0 <= i < |out| ==> out'[i] == out[i];
  }

  /** One turn of the second loop of `extractors`: the extractor for one language, or why there is none. */
  method BuildOne(reg: Registry, lang: Language, text: string) returns (r: Outcome<Ex.Extractor>)
    ensures r.Ok? <==> FinalCheck(reg, lang, text).Ok?
    ensures r.Err? ==> r.error == FinalCheck(reg, lang, text).error
    ensures r.Ok? ==> r.value == ExtractorFor(lang, FinalCheck(reg, lang, text).value)
  {
    var query := WithContext(reg.parseQuery(lang, text), "could not parse combined query");
    if query.Err? {
      return Err(query.error);
    }
    var info := query.value;
    var compiled := Compile(info);
    for i := 0 to compiled.PatternCount()
      invariant forall j :: 0 <= j < i ==> compiled.generalPredicates[j] == []
    {
      var preds := compiled.generalPredicates[i];
      if preds != [] {
        assert FirstPredicate(info.generalPredicates) == Some(preds[0]);
        return Err(UnknownPredicate(preds[0]));
      }
    }
    var extractor := Ex.NewExtractor(lang, compiled);
    return Ok(extractor);
  }

  /**
    The second loop of `extractors`: compile each language's combined text,
    refuse general predicates, and build its extractor. The map is visited
    in an unspecified order.
   */
  method BuildExtractors(reg: Registry, queryStrings: map<Language, string>) returns (r: Outcome<seq<Ex.Extractor>>)
    ensures r.Ok? <==> forall l :: l in queryStrings ==> FinalCheck(reg, l, queryStrings[l]).Ok?
    ensures r.Err? ==> exists l :: l in queryStrings && FinalCheck(reg, l, queryStrings[l]) == Err(r.error)
    ensures r.Ok? ==> Built(reg, queryStrings, queryStrings.Keys, r.value)
  {
    var remaining := queryStrings.Keys;
    ghost var done: set<Language> := {};
    var out: seq<Ex.Extractor> := [];
    while remaining != {}
      invariant done + remaining == queryStrings.Keys && done !! remaining
      invariant Built(reg, queryStrings, done, out)
      decreases remaining
    {
      var lang :| lang in remaining;
      var extractor := BuildOne(reg, lang, queryStrings[lang]);
      if extractor.Err? {
        return Err(extractor.error);
      }
      BuiltStep(reg, queryStrings, done, out, lang, extractor.value);
      out := out + [extractor.value];
      done := done + {lang};
      remaining := remaining - {lang};
    }
    assert done == queryStrings.Keys;
    return Ok(out);
  }

  // ---- output format ------------------------------------------------------

  datatype QueryFormat = Lines | Json | JsonLines | PrettyJson | Pretty

  /** The name `--format` takes for each format. */
  function FormatName(f: QueryFormat): string
  {
    match f
    case Lines => "lines"
    case Json => "json"
    case JsonLines => "json-lines"
    case PrettyJson => "pretty-json"
    case Pretty => "pretty"
  }

  const UNKNOWN_FORMAT: string := "unknown format. See --help for valid formats."

  /** `QueryFormat::from_str`. */
  function ParseFormat(s: string): Outcome<QueryFormat>
  {
    match s
    case "lines" => Ok(Lines)
    case "json" => Ok(Json)
    case "json-lines" => Ok(JsonLines)
    case "pretty-json" => Ok(PrettyJson)
    case "pretty" => Ok(Pretty)
    case _ => Err(Fail(UNKNOWN_FORMAT))
  }

  /** Exactly the five names are accepted, each naming its own format. */
  lemma ParseFormatExact(s: string)
    ensures ParseFormat(s).Ok? <==> s in {"lines", "json", "json-lines", "pretty-json", "pretty"}
    ensures ParseFormat(s).Ok? ==> FormatName(ParseFormat(s).value) == s
    ensures ParseFormat(s).Err? ==> ParseFormat(s).error == Fail(UNKNOWN_FORMAT)
  {
  }

  lemma ParseFormatName(f: QueryFormat)
    ensures ParseFormat(FormatName(f)) == Ok(f)
  {
  }

  // ---- numeric options ----------------------------------------------------

  const UNWRAP_PANIC: string := "called `Result::unwrap()` on an `Err` value"

  /**
    `.map(|s| s.parse().unwrap())`: a text that is not a `usize` panics with
    the `Debug` form of the parse error after the `unwrap` message.
   */
  function ParseOrPanic(s: string): (r: Outcome<nat>)
    ensures r.Ok? <==> ParseUsize(s).Some?
    ensures r.Ok? ==> r.value == ParseUsize(s).value
    ensures r.Err? ==> FromStr(s).Err? && r.error == Panicked(UNWRAP_PANIC + ": " + ParseIntErrorDebug(FromStr(s).error))
  {
    FromStrAgrees(s);
    match FromStr(s)
    case Ok(n) => Ok(n)
    case Err(kind) => Err(Panicked(UNWRAP_PANIC + ": " + ParseIntErrorDebug(kind)))
  }

  /**
    `after_lines` (from `--after`) and `before_lines` (from `--before`): the
    option's own value if given, else `--context`, else 0.
   */
  function WindowLines(own: Option<string>, context: Option<string>): (r: Outcome<nat>)
    ensures own.Some? ==> r == ParseOrPanic(own.value)
    ensures own.None? && context.Some? ==> r == ParseOrPanic(context.value)
    ensures own.None? && context.None? ==> r == Ok(0)
  {
    var chosen := if own.Some? then own else context;
    match chosen
    case None => Ok(0)
    case Some(s) => ParseOrPanic(s)
  }

  /** `tab_width`: `--tab-width` if given, else 4. */
  function TabWidth(given: Option<string>): (r: Outcome<nat>)
    ensures given.None? ==> r == Ok(4)
    ensures given.Some? ==> r == ParseOrPanic(given.value)
  {
    match given
    case None => Ok(4)
    case Some(s) => ParseOrPanic(s)
  }

  /** A number written back as `--context` is the window on both sides. */
  lemma ContextAppliesToBothSides(n: nat)
    requires n < USIZE_LIMIT
    ensures WindowLines(None, Some(ToDecimal(n))) == Ok(n)
  {
    ParseToDecimal(n);
  }

  // ---- choosing what to do ------------------------------------------------

  /** The option values clap hands over, defaults (`.` for PATHS, `pretty`, the theme) already applied. */
  datatype Args = Args(
    languages: bool,
    showTree: Option<string>,
    queries: Option<seq<string>>,
    paths: Option<seq<string>>,
    noGitignore: bool,
    format: Option<string>,
    sort: bool,
    theme: Option<string>,
    tabWidth: Option<string>,
    after: Option<string>,
    before: Option<string>,
    context: Option<string>,
    count: bool,
    noFilename: bool,
    noLineNumber: bool)

  datatype QueryOpts = QueryOpts(
    extractors: seq<Ex.Extractor>,
    paths: seq<Path>,
    gitIgnore: bool,
    format: QueryFormat,
    sort: bool,
    theme: string,
    tabWidth: nat,
    beforeLines: nat,
    afterLines: nat,
    showCount: bool,
    noFilename: bool,
    noLineNumber: bool)

  datatype Invocation = DoQuery(opts: QueryOpts) | ShowLanguages | ShowTree(language: Language, path: Path)

  const NO_PATHS: string :=
    "at least one path was required but not provided. This indicates an internal errors and you should report it!"
  const ONE_TREE_PATH: string := "need exactly one path to print a tree"
  const NO_FORMAT: string := "format not provided"
  const FORMAT_CONTEXT: string := "could not set format"
  const NO_THEME_PANIC: string := "called `Option::unwrap()` on a `None` value"

  /** `Invocation::paths`: every text is a path; having none is an internal error. */
  function ArgPaths(paths: Option<seq<string>>): (r: Outcome<seq<Path>>)
    ensures r.Ok? <==> paths.Some?
    ensures r.Ok? ==> |r.value| == |paths.value|
    ensures r.Ok? ==> forall i :: 0 <= i < |paths.value| ==> r.value[i] == ParsePath(Utf8Encode(paths.value[i]))
  {
    match paths
    case None => Err(Fail(NO_PATHS))
    case Some(texts) => Ok(seq(|texts|, i requires 0 <= i < |texts| => ParsePath(Utf8Encode(texts[i]))))
  }

  /** The `--show-tree` branch: a known language and exactly one path. */
  function ShowTreeInvocation(reg: Registry, rawLang: string, paths: Option<seq<string>>): (r: Outcome<Invocation>)
    ensures r.Ok? <==> reg.fromStr(rawLang).Ok? && paths.Some? && |paths.value| == 1
    ensures r.Ok? ==> r.value == ShowTree(reg.fromStr(rawLang).value, ParsePath(Utf8Encode(paths.value[0])))
    ensures reg.fromStr(rawLang).Ok? && paths.Some? && |paths.value| != 1 ==> r == Err(Fail(ONE_TREE_PATH))
  {
    match WithContext(reg.fromStr(rawLang), "could not parse language")
    case Err(e) => Err(e)
    case Ok(lang) =>
      match ArgPaths(paths)
      case Err(e) => Err(e)
      case Ok(ps) => if |ps| != 1 then Err(Fail(ONE_TREE_PATH)) else Ok(ShowTree(lang, ps[0]))
  }

  /** The queries of an invocation combine, and every combined query checks out. */
  ghost predicate ExtractorsValid(reg: Registry, args: Args)
  {
    && args.queries.Some? && CombineQueries(reg, Pairs(args.queries.value)).Ok?
    && (var m := CombineQueries(reg, Pairs(args.queries.value)).value;
        forall l :: l in m ==> FinalCheck(reg, l, m[l]).Ok?)
  }

  /** Every option of a query invocation decodes: the pairs combine and check out, and each value parses. */
  ghost predicate QueryArgsValid(reg: Registry, args: Args)
  {
    && ExtractorsValid(reg, args)
    && args.paths.Some?
    && args.format.Some? && ParseFormat(args.format.value).Ok?
    && args.theme.Some?
    && TabWidth(args.tabWidth).Ok?
    && WindowLines(args.after, args.context).Ok?
    && WindowLines(args.before, args.context).Ok?
  }

  /**
    `Invocation::from_args` after clap: `--languages`, else `--show-tree`,
    else a query whose options are read field by field in the order the
    source writes them, the first failure ending the call.
   */
  method FromArgs(reg: Registry, args: Args) returns (r: Outcome<Invocation>)
    ensures args.languages ==> r == Ok(ShowLanguages)
    ensures !args.languages && args.showTree.Some? ==> r == ShowTreeInvocation(reg, args.showTree.value, args.paths)
    ensures !args.languages && args.showTree.None? ==> (r.Ok? <==> QueryArgsValid(reg, args))
    ensures !args.languages && args.showTree.None? && r.Ok? ==> r.value.DoQuery?
    ensures r.Ok? && r.value.DoQuery? ==>
      var o := r.value.opts;
      && !args.languages && args.showTree.None?
      && args.queries.Some? && CombineQueries(reg, Pairs(args.queries.value)).Ok?
      && Built(reg, CombineQueries(reg, Pairs(args.queries.value)).value,
               CombineQueries(reg, Pairs(args.queries.value)).value.Keys, o.extractors)
      && ArgPaths(args.paths) == Ok(o.paths)
      && o.gitIgnore == !args.noGitignore
      && args.format.Some? && ParseFormat(args.format.value) == Ok(o.format)
      && o.sort == args.sort
      && args.theme == Some(o.theme)
      && TabWidth(args.tabWidth) == Ok(o.tabWidth)
      && WindowLines(args.after, args.context) == Ok(o.afterLines)
      && WindowLines(args.before, args.context) == Ok(o.beforeLines)
      && o.showCount == args.count && o.noFilename == args.noFilename && o.noLineNumber == args.noLineNumber
    // A query invocation fails at the first option that does not decode, in the order the fields are written.
    ensures !args.languages && args.showTree.None? && args.queries.None? ==> r == Err(Fail(NO_QUERIES))
    ensures (!args.languages && args.showTree.None? && args.queries.Some?
             && CombineQueries(reg, Pairs(args.queries.value)).Err?) ==>
      r == Err(CombineQueries(reg, Pairs(args.queries.value)).error)
    ensures (!args.languages && args.showTree.None? && args.queries.Some?
             && CombineQueries(reg, Pairs(args.queries.value)).Ok? && !ExtractorsValid(reg, args)) ==>
      var m := CombineQueries(reg, Pairs(args.queries.value)).value;
      r.Err? && exists l :: l in m && FinalCheck(reg, l, m[l]) == Err(r.error)
    ensures !args.languages && args.showTree.None? && ExtractorsValid(reg, args) ==>
      && (args.paths.None? ==> r == Err(Fail(NO_PATHS)))
      && (args.paths.Some? && args.format.None? ==> r == Err(Fail(NO_FORMAT)))
      && (args.paths.Some? && args.format.Some? && ParseFormat(args.format.value).Err? ==>
            r == Err(WithContext(ParseFormat(args.format.value), FORMAT_CONTEXT).error))
    ensures (!args.languages && args.showTree.None? && ExtractorsValid(reg, args)
             && args.paths.Some? && args.format.Some? && ParseFormat(args.format.value).Ok?) ==>
      && (args.theme.None? ==> r == Err(Panicked(NO_THEME_PANIC)))
      && (args.theme.Some? && TabWidth(args.tabWidth).Err? ==> r == Err(TabWidth(args.tabWidth).error))
      && (args.theme.Some? && TabWidth(args.tabWidth).Ok? && WindowLines(args.after, args.context).Err? ==>
            r == Err(WindowLines(args.after, args.context).error))
      && (args.theme.Some? && TabWidth(args.tabWidth).Ok? && WindowLines(args.after, args.context).Ok?
          && WindowLines(args.before, args.context).Err? ==>
            r == Err(WindowLines(args.before, args.context).error))
  {
    if args.languages {
      return Ok(ShowLanguages);
    }
    if args.showTree.Some? {
      return ShowTreeInvocation(reg, args.showTree.value, args.paths);
    }
    var extractors := Extractors(reg, args.queries);
    if extractors.Err? {
      return Err(extractors.error);
    }
    var paths := ArgPaths(args.paths);
    if paths.Err? {
      return Err(paths.error);
    }
    if args.format.None? {
      return Err(Fail(NO_FORMAT));
    }
    var format := WithContext(ParseFormat(args.format.value), FORMAT_CONTEXT);
    if format.Err? {
      return Err(format.error);
    }
    if args.theme.None? {
      return Err(Panicked(NO_THEME_PANIC));
    }
    var tabWidth := TabWidth(args.tabWidth);
    if tabWidth.Err? {
      return Err(tabWidth.error);
    }
    var afterLines := WindowLines(args.after, args.context);
    if afterLines.Err? {
      return Err(afterLines.error);
    }
    var beforeLines := WindowLines(args.before, args.context);
    if beforeLines.Err? {
      return Err(beforeLines.error);
    }
    var opts := QueryOpts(extractors.value, paths.value, !args.noGitignore, format.value, args.sort,
                          args.theme.value, tabWidth.value, beforeLines.value, afterLines.value,
                          args.count, args.noFilename, args.noLineNumber);
    return Ok(DoQuery(opts));
  }
}
