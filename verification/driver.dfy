/**
  main.rs: gathering the per-file results of a query, the optional sort,
  the `lines` output of all files, the line ranges of the `pretty` format,
  the start of the directory walk, and how an error ends the process.
 */
module Driver {
  import opened Wrappers
  import opened Errors
  import opened Ordering
  import opened Paths
  import opened Engine
  import Ex = Extractor
  import Cli
  import Decimal

  // ---- gathering per-file results -----------------------------------------

  const FILE_CONTEXT: string := "could not extract matches from "

  /** The context each file's failure gets, naming the file as `Path::display` shows it. */
  function AnnotateFile(shown: string, r: Outcome<Option<Ex.ExtractedFile>>): (r': Outcome<Option<Ex.ExtractedFile>>)
    ensures r.Ok? ==> r' == r
    ensures r.Err? ==> r' == Err(Error(r.error.cause, [FILE_CONTEXT + shown] + r.error.context))
  {
    WithContext(r, FILE_CONTEXT + shown)
  }

  /** One extraction result per file, next to the file's name as `Path::display` shows it. */
  type Item = (string, Outcome<Option<Ex.ExtractedFile>>)

  function Results(items: seq<Item>): (rs: seq<Outcome<Option<Ex.ExtractedFile>>>)
    ensures |rs| == |items| && forall i :: 0 <= i < |items| ==> rs[i] == items[i].1
  {
    seq(|items|, i requires 0 <= i < |items| => items[i].1)
  }

  /** The `map` of `do_query` that names the file in each failure. */
  function Annotated(items: seq<Item>): (rs: seq<Outcome<Option<Ex.ExtractedFile>>>)
    ensures |rs| == |items| && forall i :: 0 <= i < |items| ==> rs[i] == AnnotateFile(items[i].0, items[i].1)
  {
    seq(|items|, i requires 0 <= i < |items| => AnnotateFile(items[i].0, items[i].1))
  }

  /**
    The `filter_map` and `collect::<Result<Vec<_>>>` of `do_query`: files
    without matches are dropped, the others kept in order, and any failure
    makes the whole collection fail.
   */
  function Collect(results: seq<Outcome<Option<Ex.ExtractedFile>>>): (r: Outcome<seq<Ex.ExtractedFile>>)
    ensures r.Ok? <==> forall i :: 0 <= i < |results| ==> results[i].Ok?
    ensures r.Ok? ==> |r.value| <= |results|
    ensures r.Err? ==> exists i :: 0 <= i < |results| && results[i] == Err(r.error)
  {
    if results == [] then Ok([])
    else
      var rest := Collect(results[1..]);
      assert forall i :: 0 < i < |results| ==> results[i] == results[1..][i - 1];
      match results[0]
      case Err(e) => Err(e)
      case Ok(None) => rest
      case Ok(Some(f)) => if rest.Ok? then Ok([f] + rest.value) else rest
  }

  /** Gathering is compositional: the files of two batches are those of the first followed by those of the second. */
  lemma {:induction false} CollectAppend(a: seq<Outcome<Option<Ex.ExtractedFile>>>, b: seq<Outcome<Option<Ex.ExtractedFile>>>)
    requires Collect(a).Ok? && Collect(b).Ok?
    ensures Collect(a + b) == Ok(Collect(a).value + Collect(b).value)
  {
    if a == [] {
      assert a + b == b;
      assert Collect(a).value + Collect(b).value == Collect(b).value;
    } else {
      assert (a + b)[0] == a[0] && (a + b)[1..] == a[1..] + b;
      CollectAppend(a[1..], b);
      if a[0].Ok? && a[0].value.Some? {
        var f := a[0].value.value;
        assert Collect(a).value == [f] + Collect(a[1..]).value;
        assert Collect(a + b) == Ok([f] + (Collect(a[1..]).value + Collect(b).value));
        assert [f] + (Collect(a[1..]).value + Collect(b).value) == ([f] + Collect(a[1..]).value) + Collect(b).value;
      } else {
        assert a[0] == Ok(None);
        assert Collect(a) == Collect(a[1..]) && Collect(a + b) == Collect(a[1..] + b);
      }
    }
  }

  /** A single result: `Ok(None)` contributes nothing, `Ok(Some(f))` contributes `f`, an error is the error. */
  lemma CollectOne(r: Outcome<Option<Ex.ExtractedFile>>)
    ensures r == Ok(None) ==> Collect([r]) == Ok([])
    ensures r.Ok? && r.value.Some? ==> Collect([r]) == Ok([r.value.value])
    ensures r.Err? ==> Collect([r]) == Err(r.error)
  {
    assert [r][1..] == [];
    if r.Ok? && r.value.Some? {
      assert [r.value.value] + [] == [r.value.value];
    }
  }

  /** The files kept are exactly the files some result carries. */
  lemma {:induction false} CollectKeeps(results: seq<Outcome<Option<Ex.ExtractedFile>>>, f: Ex.ExtractedFile)
    requires Collect(results).Ok?
    ensures f in Collect(results).value <==> Ok(Some(f)) in results
  {
    if results != [] {
      CollectKeeps(results[1..], f);
      assert results == [results[0]] + results[1..];
    }
  }

  /** When several files fail, the model reports the first of them. */
  lemma {:induction false} CollectFirstError(results: seq<Outcome<Option<Ex.ExtractedFile>>>)
    requires Collect(results).Err?
    ensures exists i :: (0 <= i < |results| && results[i] == Err(Collect(results).error)
      && forall j :: 0 <= j < i ==> results[j].Ok?)
  {
    if results[0].Ok? {
      CollectFirstError(results[1..]);
      var i :| 0 <= i < |results[1..]| && results[1..][i] == Err(Collect(results[1..]).error)
        && forall j :: 0 <= j < i ==> results[1..][j].Ok?;
      assert results[i + 1] == Err(Collect(results).error);
      assert forall j :: 0 < j < i + 1 ==> results[j] == results[1..][j - 1];
    }
  }

  const COLLECT_CONTEXT: string := "couldn't extract matches from files"

  // ---- sorting ------------------------------------------------------------

  /**
    `extracted_files.sort()`: the files end up in their derived order. The
    order is total and its ties are equal files, so the result is the one
    sorted permutation of the input, whichever sorting algorithm produced it.
   */
  method SortFiles(files: array<Ex.ExtractedFile>)
    modifies files
    ensures Sorted(Ex.CmpFile, files[..])
    ensures multiset(files[..]) == multiset(old(files[..]))
    ensures files[..] == InsertionSort(Ex.CmpFile, old(files[..]))
  {
    Ex.CmpFileTotal();
    ghost var before := files[..];
    SortInPlace(Ex.CmpFile, files);
    InsertionSortCorrect(Ex.CmpFile, before);
    SortedPermutationUnique(Ex.CmpFile, files[..], InsertionSort(Ex.CmpFile, before));
  }

  /**
    The part of `do_query` between walking and printing: gather the
    per-file results and, with `--sort`, sort the files.
   */
  method GatherFiles(items: seq<Item>, sort: bool) returns (r: Outcome<seq<Ex.ExtractedFile>>)
    ensures r.Ok? <==> forall i :: 0 <= i < |items| ==> items[i].1.Ok?
    ensures r.Err? ==> exists i :: (0 <= i < |items| && items[i].1.Err?
      && r.error == Error(items[i].1.error.cause, [COLLECT_CONTEXT, FILE_CONTEXT + items[i].0] + items[i].1.error.context))
    ensures r.Ok? && !sort ==> r.value == Collect(Results(items)).value
    ensures r.Ok? && sort ==> Sorted(Ex.CmpFile, r.value) && multiset(r.value) == multiset(Collect(Results(items)).value)
    ensures r.Ok? && sort ==> r.value == InsertionSort(Ex.CmpFile, Collect(Results(items)).value)
  {
    var annotated := Annotated(items);
    var collected := WithContext(Collect(annotated), COLLECT_CONTEXT);
    if collected.Err? {
      var i :| 0 <= i < |annotated| && annotated[i] == Err(Collect(annotated).error);
      assert [COLLECT_CONTEXT] + ([FILE_CONTEXT + items[i].0] + items[i].1.error.context)
        == [COLLECT_CONTEXT, FILE_CONTEXT + items[i].0] + items[i].1.error.context;
      return Err(collected.error);
    }
    assert annotated == Results(items);
    var files := collected.value;
    if sort {
      var buffer := new Ex.ExtractedFile[|files|](i requires 0 <= i < |files| => files[i]);
      assert buffer[..] == files;
      SortFiles(buffer);
      files := buffer[..];
    }
    return Ok(files);
  }

  // ---- the `lines` format over all files ----------------------------------

  /** The `lines` output of several files: each file's lines, file after file. */
  function AllLines(files: seq<Ex.ExtractedFile>, decode: Utf8Decoder): string
  {
    if files == [] then ""
    else
      var last := files[|files| - 1];
      AllLines(files[..|files| - 1], decode) + Ex.Lines(Ex.DisplayName(last, decode), last.matches)
  }

  /** The `QueryFormat::Lines` branch: write each file with its `Display`. */
  method WriteAllLines(files: seq<Ex.ExtractedFile>, decode: Utf8Decoder) returns (out: string)
    ensures out == AllLines(files, decode)
  {
    out := "";
    for i := 0 to |files|
      invariant out == AllLines(files[..i], decode)
    {
      assert files[..i + 1][..i] == files[..i];
      var text := Ex.WriteLines(files[i], decode);
      out := out + text;
    }
    assert files[..|files|] == files;
  }

  function MatchCount(files: seq<Ex.ExtractedFile>): nat
  {
    if files == [] then 0 else MatchCount(files[..|files| - 1]) + |files[|files| - 1].matches|
  }

  /** No line break in a file name, capture name or text: the output has one line per match of every file. */
  ghost predicate SingleLine(files: seq<Ex.ExtractedFile>, decode: Utf8Decoder)
  {
    forall f :: f in files ==>
      ('\n' !in Ex.DisplayName(f, decode) && forall m :: m in f.matches ==> '\n' !in m.name && '\n' !in m.text)
  }

  lemma {:induction false} OneLinePerMatchOfAllFiles(files: seq<Ex.ExtractedFile>, decode: Utf8Decoder)
    requires SingleLine(files, decode)
    ensures Ex.NewlineCount(AllLines(files, decode)) == MatchCount(files)
  {
    if files != [] {
      var init, f := files[..|files| - 1], files[|files| - 1];
      assert SingleLine(init, decode);
      assert f in files;
      OneLinePerMatchOfAllFiles(init, decode);
      Ex.OneLinePerMatch(Ex.DisplayName(f, decode), f.matches);
      Ex.NewlineCountAppend(AllLines(init, decode), Ex.Lines(Ex.DisplayName(f, decode), f.matches));
    }
  }

  // ---- pretty-format line ranges ------------------------------------------

  /** A 1-indexed, inclusive range of lines, as `bat` takes it. */
  datatype LineRange = LineRange(lower: int, upper: int)

  predicate InRange(line: int, r: LineRange)
  {
    r.lower <= line <= r.upper
  }

  /**
    The lines `bat` highlights for a match: from the 1-indexed start row to
    the 1-indexed end row, leaving out a last row the match ends at the very
    beginning of.
   */
  function HighlightRange(m: Ex.ExtractedMatch): (r: LineRange)
    ensures r.lower == Ex.SerializePoint(m.start).row
    ensures r.lower >= 1
  {
    LineRange(m.start.row + 1, if m.end.column == 0 then m.end.row else m.end.row + 1)
  }

  /** The 1-indexed lines a match has at least one character on. */
  predicate Touches(m: Ex.ExtractedMatch, line: int)
  {
    && m.start.row + 1 <= line
    && (line < m.end.row + 1 || (line == m.end.row + 1 && m.end.column > 0))
  }

  /**
    For a match that does not end before it starts, the highlighted lines
    are exactly the lines it has a character on; the range is empty only for
    an empty match at the start of a line.
   */
  lemma HighlightCoversMatch(m: Ex.ExtractedMatch, line: int)
    requires Ex.CmpPoint(m.start, m.end) != Greater
    ensures InRange(line, HighlightRange(m)) <==> Touches(m, line)
    ensures HighlightRange(m).lower <= HighlightRange(m).upper <==>
      !(m.end.column == 0 && m.end.row == m.start.row)
  {
  }

  /** The first highlighted line is the line number the `lines` format prints for the match. */
  lemma HighlightAgreesWithLines(filename: string, m: Ex.ExtractedMatch)
    ensures Ex.Line(filename, m) == filename + ":" + Decimal.ToDecimal(HighlightRange(m).lower) + ":"
      + Decimal.ToDecimal(m.start.column + 1) + ":" + m.name + ":" + m.text + "\n"
  {
  }

  /**
    The displayed range of a match as written: `LineRange::new(s - before,
    e + after)` with `usize` arithmetic, which in a release build wraps
    around when `before` exceeds `s`.
   */
  function ContextRangeAsWritten(h: LineRange, before: nat, after: nat): (r: LineRange)
    requires 1 <= h.lower < Decimal.USIZE_LIMIT && before < Decimal.USIZE_LIMIT
    ensures before <= h.lower ==> r.lower == h.lower - before
    ensures before > h.lower ==> r.lower == h.lower - before + Decimal.USIZE_LIMIT
  {
    LineRange((h.lower - before) % Decimal.USIZE_LIMIT, h.upper + after)
  }

  /** Five lines of context before a match on line 2: the window wraps around and hides the match itself. */
  lemma ContextRangeWrapsAround()
    ensures var h := LineRange(2, 2);
      && ContextRangeAsWritten(h, 5, 0).lower == Decimal.USIZE_LIMIT - 3
      && !InRange(2, ContextRangeAsWritten(h, 5, 0))
  {
  }

  /** The displayed range with the subtraction saturating at zero. */
  function ContextRange(h: LineRange, before: nat, after: nat): (r: LineRange)
    ensures r.lower >= 0 && r.upper == h.upper + after
  {
    LineRange(if before >= h.lower then 0 else h.lower - before, h.upper + after)
  }

  /**
    The corrected window shows every highlighted line, and apart from them
    exactly the `before` lines above and the `after` lines below (those that
    exist).
   */
  lemma ContextRangeCovers(h: LineRange, before: nat, after: nat, line: int)
    requires 1 <= h.lower && line >= 1
    ensures InRange(line, h) ==> InRange(line, ContextRange(h, before, after))
    ensures InRange(line, ContextRange(h, before, after)) <==>
      h.lower - before <= line <= h.upper + after
  {
  }

  /** Where no wrap-around happens, the corrected window is the one written. */
  lemma ContextRangeAgrees(h: LineRange, before: nat, after: nat)
    requires 1 <= h.lower < Decimal.USIZE_LIMIT && before <= h.lower
    ensures ContextRange(h, before, after) == ContextRangeAsWritten(h, before, after)
  {
  }

  /** Rows and a line count a `usize` holds, with room for the `+ 1` of the highlight. */
  predicate UsizeRows(ms: seq<Ex.ExtractedMatch>, before: nat)
  {
    && before < Decimal.USIZE_LIMIT
    && forall i :: 0 <= i < |ms| ==> ms[i].start.row + 1 < Decimal.USIZE_LIMIT
  }

  /**
    The highlight and display ranges of one file's matches, in the order of
    the matches, as written: a window holds its highlight when `before` does
    not exceed the first highlighted line, and wraps past it otherwise.
   */
  function PrettyRanges(ms: seq<Ex.ExtractedMatch>, before: nat, after: nat): (r: seq<(LineRange, LineRange)>)
    requires UsizeRows(ms, before)
    ensures |r| == |ms|
    ensures forall i :: 0 <= i < |ms| ==> r[i].0 == HighlightRange(ms[i])
    ensures forall i :: 0 <= i < |ms| ==> r[i].1.upper == r[i].0.upper + after
    ensures forall i :: 0 <= i < |ms| && before <= r[i].0.lower ==>
      forall line :: InRange(line, r[i].0) ==> InRange(line, r[i].1)
    ensures forall i :: 0 <= i < |ms| && before > r[i].0.lower ==>
      r[i].1.lower > r[i].0.lower && !InRange(r[i].0.lower, r[i].1)
  {
    seq(|ms|, i requires 0 <= i < |ms| => (HighlightRange(ms[i]), ContextRangeAsWritten(HighlightRange(ms[i]), before, after)))
  }

  /** The ranges with the corrected window: every window holds its highlight. */
  function PrettyRangesCorrected(ms: seq<Ex.ExtractedMatch>, before: nat, after: nat): (r: seq<(LineRange, LineRange)>)
    ensures |r| == |ms|
    ensures forall i :: 0 <= i < |ms| ==> r[i].0 == HighlightRange(ms[i])
    ensures forall i :: 0 <= i < |ms| ==> forall line :: InRange(line, r[i].0) ==> InRange(line, r[i].1)
  {
    seq(|ms|, i requires 0 <= i < |ms| => (HighlightRange(ms[i]), ContextRange(HighlightRange(ms[i]), before, after)))
  }

  /** When no match starts fewer than `before` lines from the top, the written and corrected ranges are the same. */
  lemma PrettyRangesAgree(ms: seq<Ex.ExtractedMatch>, before: nat, after: nat)
    requires UsizeRows(ms, before)
    requires forall i :: 0 <= i < |ms| ==> before <= ms[i].start.row + 1
    ensures PrettyRanges(ms, before, after) == PrettyRangesCorrected(ms, before, after)
  {
    forall i | 0 <= i < |ms|
      ensures PrettyRanges(ms, before, after)[i] == PrettyRangesCorrected(ms, before, after)[i]
    {
      ContextRangeAgrees(HighlightRange(ms[i]), before, after);
    }
  }

  // ---- starting the walk --------------------------------------------------

  /** The part of `ignore::WalkBuilder` that `find_files` sets up: the roots and the three git filters. */
  class WalkBuilder {
    var roots: seq<Path>
    var gitIgnore: bool
    var gitExclude: bool
    var gitGlobal: bool

    /** `WalkBuilder::new(root)`: one root, every git filter on. */
    constructor(root: Path)
      ensures roots == [root]
      ensures gitIgnore && gitExclude && gitGlobal
    {
      roots := [root];
      gitIgnore := true;
      gitExclude := true;
      gitGlobal := true;
    }

    /** `WalkBuilder::add`: one more root, after the others. */
    method Add(path: Path)
      modifies this
      ensures roots == old(roots) + [path]
      ensures gitIgnore == old(gitIgnore) && gitExclude == old(gitExclude) && gitGlobal == old(gitGlobal)
    {
      roots := roots + [path];
    }

    /** `git_ignore`, `git_exclude` and `git_global` set to the same value. */
    method SetGitFilters(yes: bool)
      modifies this
      ensures roots == old(roots)
      ensures gitIgnore == yes && gitExclude == yes && gitGlobal == yes
    {
      gitIgnore := yes;
      gitExclude := yes;
      gitGlobal := yes;
    }
  }

  const NO_ROOTS: string := "I need at least one file or directory to walk!"

  /**
    The set-up half of `find_files`: the first path is the root, every other
    path is added after it, and the git filters follow `--no-gitignore`.
   */
  method FindFiles(paths: seq<Path>, gitIgnore: bool) returns (r: Outcome<WalkBuilder>)
    ensures paths == [] <==> r.Err?
    ensures r.Err? ==> r.error == Fail(NO_ROOTS)
    ensures r.Ok? ==> fresh(r.value) && r.value.roots == paths
    ensures r.Ok? ==> r.value.gitIgnore == gitIgnore && r.value.gitExclude == gitIgnore && r.value.gitGlobal == gitIgnore
  {
    if paths == [] {
      return Err(Fail(NO_ROOTS));
    }
    var builder := new WalkBuilder(paths[0]);
    for i := 1 to |paths|
      invariant builder.roots == paths[..i]
    {
      builder.Add(paths[i]);
      assert paths[..i + 1] == paths[..i] + [paths[i]];
    }
    assert paths[..|paths|] == paths;
    builder.SetGitFilters(gitIgnore);
    return Ok(builder);
  }

  // ---- ending the process -------------------------------------------------

  const CONFIG_CONTEXT: string := "couldn't get a valid configuration from the command-line options"
  const QUERY_CONTEXT: string := "couldn't perform the query"
  const TREE_CONTEXT: string := "couldn't show the tree"

  /** `try_main`: the configuration error or the chosen action's error, each with its context. */
  function TryMain(config: Outcome<Cli.Invocation>, query: Outcome<()>, tree: Outcome<()>): (r: Outcome<()>)
    ensures config.Err? ==> r == Err(Error(config.error.cause, [CONFIG_CONTEXT] + config.error.context))
    ensures config == Ok(Cli.ShowLanguages) ==> r == Ok(())
    ensures config.Ok? && config.value.DoQuery? ==> (r.Ok? <==> query.Ok?)
    ensures config.Ok? && config.value.DoQuery? && query.Err? ==>
      r == Err(Error(query.error.cause, [QUERY_CONTEXT] + query.error.context))
    ensures config.Ok? && config.value.ShowTree? ==> (r.Ok? <==> tree.Ok?)
    ensures config.Ok? && config.value.ShowTree? && tree.Err? ==>
      r == Err(Error(tree.error.cause, [TREE_CONTEXT] + tree.error.context))
  {
    match WithContext(config, CONFIG_CONTEXT)
    case Err(e) => Err(e)
    case Ok(invocation) =>
      if invocation.DoQuery? then WithContext(query, QUERY_CONTEXT)
      else if invocation.ShowLanguages? then Ok(())
      else WithContext(tree, TREE_CONTEXT)
  }

  const FLUSH_PANIC: string := "failed to flush buffer!"

  /** How flushing the buffered standard output went; a failure carries the `Debug` form of its `io::Error`. */
  datatype Flush = Flushed | FlushFailed(debug: string)

  /** What reaches the standard error stream. */
  datatype Report = Nothing | ClapText(message: string) | DebugReport(error: Error) | PanicMessage(message: string)

  /** How the process ends: its exit code and what it reported. */
  datatype Ending = Ending(code: nat, report: Report)

  /**
    `main`: a broken pipe ends quietly with 0, a clap error is printed as it
    is and any other error in its debug form, both with 1; on success the
    buffered output is flushed, and a failed flush panics. A panic anywhere
    ends the process with 101.
   */
  function Finish(r: Outcome<()>, flush: Flush): (end: Ending)
    ensures end.code == 0 <==> (r.Ok? && flush.Flushed?) || (r.Err? && r.error.cause.BrokenPipe?)
    ensures end.code == 101 <==> (r.Err? && r.error.cause.Panic?) || (r.Ok? && flush.FlushFailed?)
    ensures end.code == 1 <==> r.Err? && !r.error.cause.BrokenPipe? && !r.error.cause.Panic?
    ensures end.report == Nothing <==> (r.Ok? && flush.Flushed?) || (r.Err? && r.error.cause.BrokenPipe?)
    ensures r.Ok? && flush.FlushFailed? ==> end.report == PanicMessage(FLUSH_PANIC + ": " + flush.debug)
    ensures r.Err? && r.error.cause.Panic? ==> end.report == PanicMessage(r.error.cause.panicMessage)
    ensures r.Err? && r.error.cause.Usage? ==> end.report == ClapText(r.error.cause.clapMessage)
    ensures r.Err? && (r.error.cause.OtherIo? || r.error.cause.Message?) ==> end.report == DebugReport(r.error)
  {
    match r
    case Ok(_) =>
      (match flush
       case Flushed => Ending(0, Nothing)
       case FlushFailed(debug) => Ending(101, PanicMessage(FLUSH_PANIC + ": " + debug)))
    case Err(e) =>
      match e.cause
      case BrokenPipe => Ending(0, Nothing)
      case Panic(msg) => Ending(101, PanicMessage(msg))
      case Usage(msg) => Ending(1, ClapText(msg))
      case _ => Ending(1, DebugReport(e))
  }

  /** The contexts added on the way up never change how the process ends. */
  lemma ContextDoesNotChangeExit(e: Error, msgs: seq<string>, flush: Flush)
    ensures Finish(Err(Error(e.cause, msgs + e.context)), flush).code == Finish(Err(e), flush).code
  {
  }

  /** A reader that stops early (a broken pipe while querying) ends the process with 0, whatever the context. */
  lemma BrokenPipeIsSuccess(config: Outcome<Cli.Invocation>, query: Outcome<()>, tree: Outcome<()>, flush: Flush)
    requires config.Ok? && config.value.DoQuery?
    requires query.Err? && query.error.cause.BrokenPipe?
    ensures Finish(TryMain(config, query, tree), flush) == Ending(0, Nothing)
  {
  }
}
