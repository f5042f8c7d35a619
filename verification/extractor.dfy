/**
  extractor.rs: building an extractor from a compiled query, turning the
  engine's matches over one file into extracted matches, the `lines` text of
  an extracted file, the 1-indexed JSON positions, and the derived order
  `--sort` uses.
 */
module Extractor {
  import opened Wrappers
  import opened Errors
  import opened Ordering
  import opened Decimal
  import opened Paths
  import opened Language
  import opened Engine

  /** An extractor: a language, its query, and the query's capture-name table as it was before disabling. */
  datatype Extractor = Extractor(language: Language, query: Query, captures: seq<string>)

  /** One reported capture: node kind, capture name, text, and 0-indexed start and end. */
  datatype ExtractedMatch = ExtractedMatch(kind: string, name: string, text: string, start: Point, end: Point)

  /** The matches found in one file; `file` is absent only for text that did not come from a file. */
  datatype ExtractedFile = ExtractedFile(file: Option<Path>, fileType: string, matches: seq<ExtractedMatch>)

  /** A helper capture: one whose name starts with `_`. It anchors a pattern but is never reported. */
  predicate IsHelper(name: string)
  {
    |name| > 0 && name[0] == '_'
  }

  function HelperNames(names: seq<string>): set<string>
  {
    set n | n in names && IsHelper(n)
  }

  /**
    `Extractor::new`: keep the capture table, and disable on the query every
    capture whose name starts with `_`, one name at a time.
   */
  method NewExtractor(language: Language, query: Query) returns (e: Extractor)
    ensures e.language == language && e.captures == query.captureNames
    ensures e.query.captureNames == query.captureNames && e.query.generalPredicates == query.generalPredicates
    ensures e.query.disabled == query.disabled + HelperNames(query.captureNames)
    ensures forall i :: 0 <= i < |e.captures| ==>
      (e.captures[i] in e.query.disabled <==> IsHelper(e.captures[i]) || e.captures[i] in query.disabled)
  {
    var captures := query.captureNames;
    var q := query;
    for i := 0 to |captures|
      invariant q.captureNames == captures && q.generalPredicates == query.generalPredicates
      invariant q.disabled == query.disabled + HelperNames(captures[..i])
    {
      if IsHelper(captures[i]) {
        q := q.DisableCapture(captures[i]);
      }
      assert captures[..i + 1] == captures[..i] + [captures[i]];
    }
    assert captures[..|captures|] == captures;
    e := Extractor(language, q, captures);
  }

  /** All captures of all matches, match after match, each match's captures in order. */
  function Flatten(ms: seq<QueryMatch>): seq<Capture>
  {
    if ms == [] then [] else ms[0].captures + Flatten(ms[1..])
  }

  lemma {:induction false} FlattenAppend(a: seq<QueryMatch>, b: seq<QueryMatch>)
    ensures Flatten(a + b) == Flatten(a) + Flatten(b)
  {
    if a != [] {
      FlattenAppend(a[1..], b);
      assert (a + b)[0] == a[0] && (a + b)[1..] == a[1..] + b;
    } else {
      assert a + b == b;
    }
  }

  /**
    Capture `k` of match `j` sits in the flattened sequence right after the
    captures of the matches before `j`: order is kept and nothing is added.
   */
  lemma FlattenAt(ms: seq<QueryMatch>, j: nat, k: nat)
    requires j < |ms| && k < |ms[j].captures|
    ensures |Flatten(ms[..j])| + k < |Flatten(ms)|
    ensures Flatten(ms)[|Flatten(ms[..j])| + k] == ms[j].captures[k]
  {
    assert ms == ms[..j] + [ms[j]] + ms[j + 1..];
    FlattenAppend(ms[..j] + [ms[j]], ms[j + 1..]);
    FlattenAppend(ms[..j], [ms[j]]);
    assert Flatten([ms[j]]) == ms[j].captures;
  }

  /** What the engine promises about a file's captures: a name in the table, a byte range inside the source. */
  predicate WellFormed(e: Extractor, source: seq<Byte>, caps: seq<Capture>)
  {
    forall i :: 0 <= i < |caps| ==>
      caps[i].index < |e.captures| && caps[i].node.startByte <= caps[i].node.endByte <= |source|
  }

  function NodeBytes(source: seq<Byte>, n: Node): seq<Byte>
    requires n.startByte <= n.endByte <= |source|
  {
    source[n.startByte..n.endByte]
  }

  predicate Decodes(source: seq<Byte>, c: Capture, decode: Utf8Decoder)
    requires c.node.startByte <= c.node.endByte <= |source|
  {
    decode(NodeBytes(source, c.node)).Ok?
  }

  const TEXT_CONTEXT: string := "could not extract text from capture"

  /** The error a capture whose bytes are not UTF-8 produces. */
  function DecodeError(source: seq<Byte>, c: Capture, decode: Utf8Decoder): Error
    requires c.node.startByte <= c.node.endByte <= |source| && !Decodes(source, c, decode)
  {
    Error(Message(decode(NodeBytes(source, c.node)).error), [TEXT_CONTEXT])
  }

  /**
    The `map` and `collect::<Result<Vec<_>>>` over the flattened captures:
    each capture becomes a match named from the capture table; the first
    capture whose text is not UTF-8 makes the whole result that error.
   */
  function ExtractCaptures(e: Extractor, source: seq<Byte>, caps: seq<Capture>, decode: Utf8Decoder)
    : (r: Outcome<seq<ExtractedMatch>>)
    requires WellFormed(e, source, caps)
    ensures r.Ok? <==> forall i :: 0 <= i < |caps| ==> Decodes(source, caps[i], decode)
    ensures r.Ok? ==> |r.value| == |caps| && forall i :: 0 <= i < |caps| ==>
      var n := caps[i].node;
      r.value[i] == ExtractedMatch(n.kind, e.captures[caps[i].index],
                                   decode(NodeBytes(source, n)).value, n.startPosition, n.endPosition)
    ensures r.Err? ==> exists i :: (0 <= i < |caps| && !Decodes(source, caps[i], decode)
      && (forall j :: 0 <= j < i ==> Decodes(source, caps[j], decode))
      && r.error == DecodeError(source, caps[i], decode))
  {
    if caps == [] then Ok([])
    else
      var c := caps[0];
      match decode(NodeBytes(source, c.node))
      case Err(_) => Err(DecodeError(source, c, decode))
      case Ok(text) =>
        var rest := ExtractCaptures(e, source, caps[1..], decode);
        if rest.Err? then
          var i :| 0 <= i < |caps[1..]| && !Decodes(source, caps[1..][i], decode)
            && (forall j :: 0 <= j < i ==> Decodes(source, caps[1..][j], decode))
            && rest.error == DecodeError(source, caps[1..][i], decode);
          assert caps[i + 1] == caps[1..][i];
          Err(rest.error)
        else
          Ok([ExtractedMatch(c.node.kind, e.captures[c.index], text, c.node.startPosition, c.node.endPosition)]
             + rest.value)
  }

  const PARSE_FAILED: string := "could not parse to a tree. This is an internal error and should be reported."
  const SET_LANGUAGE_CONTEXT: string := "could not set language"

  /**
    `Extractor::extract_from_text`: set the language, parse, run the query,
    and keep the file only when at least one capture survives.
   */
  function ExtractFromText(e: Extractor, path: Option<Path>, source: seq<Byte>, run: Run, decode: Utf8Decoder)
    : (r: Outcome<Option<ExtractedFile>>)
    requires run.Matched? ==> WellFormed(e, source, Flatten(run.matches))
    ensures run.LanguageRejected? ==> r == Err(Error(Message(run.reason), [SET_LANGUAGE_CONTEXT]))
    ensures run.NoTree? ==> r == Err(Fail(PARSE_FAILED))
    ensures run.Matched? ==>
      var caps := Flatten(run.matches);
      && (r == Ok(None) <==> caps == [])
      && (r.Err? <==> exists i :: 0 <= i < |caps| && !Decodes(source, caps[i], decode))
      && (r.Err? ==> exists i :: (0 <= i < |caps| && !Decodes(source, caps[i], decode)
            && (forall j :: 0 <= j < i ==> Decodes(source, caps[j], decode))
            && r.error == DecodeError(source, caps[i], decode)))
      && (r.Ok? && r.value.Some? ==>
            var f := r.value.value;
            f.file == path && f.fileType == e.language.name && f.matches != []
            && f.matches == ExtractCaptures(e, source, caps, decode).value)
  {
    match run
    case LanguageRejected(reason) => Err(Error(Message(reason), [SET_LANGUAGE_CONTEXT]))
    case NoTree => Err(Fail(PARSE_FAILED))
    case Matched(ms) =>
      var found := ExtractCaptures(e, source, Flatten(ms), decode);
      if found.Err? then Err(found.error)
      else if found.value == [] then Ok(None)
      else Ok(Some(ExtractedFile(path, e.language.name, found.value)))
  }

  /** `Extractor::extract_from_file`: read the file, then extract from its bytes under its path. */
  function ExtractFromFile(e: Extractor, path: Path, read: Outcome<seq<Byte>>, run: Run, decode: Utf8Decoder)
    : (r: Outcome<Option<ExtractedFile>>)
    requires read.Ok? && run.Matched? ==> WellFormed(e, read.value, Flatten(run.matches))
    ensures read.Err? ==> r == Err(Error(read.error.cause, ["could not read file"] + read.error.context))
    ensures read.Ok? ==> r == ExtractFromText(e, Some(path), read.value, run, decode)
    ensures r.Ok? && r.value.Some? ==> r.value.value.file == Some(path)
  {
    match WithContext(read, "could not read file")
    case Err(err) => Err(err)
    case Ok(source) => ExtractFromText(e, Some(path), source, run, decode)
  }

  /** The engine honours disabled captures: it yields none whose name is disabled. */
  predicate HonoursDisabled(e: Extractor, caps: seq<Capture>)
  {
    forall i :: 0 <= i < |caps| && caps[i].index < |e.captures| ==> e.captures[caps[i].index] !in e.query.disabled
  }

  /**
    A helper capture is never reported: when every helper name is disabled
    (as `NewExtractor` ensures) and the engine honours that, no extracted
    match carries a name starting with `_`.
   */
  lemma HelpersNeverReported(e: Extractor, path: Option<Path>, source: seq<Byte>, ms: seq<QueryMatch>, decode: Utf8Decoder)
    requires WellFormed(e, source, Flatten(ms))
    requires forall i :: 0 <= i < |e.captures| && IsHelper(e.captures[i]) ==> e.captures[i] in e.query.disabled
    requires HonoursDisabled(e, Flatten(ms))
    ensures var r := ExtractFromText(e, path, source, Matched(ms), decode);
      r.Ok? && r.value.Some? ==> forall m :: m in r.value.value.matches ==> !IsHelper(m.name)
  {
    var caps := Flatten(ms);
    var r := ExtractFromText(e, path, source, Matched(ms), decode);
    if r.Ok? && r.value.Some? {
      var found := r.value.value.matches;
      forall m | m in found ensures !IsHelper(m.name) {
        var i :| 0 <= i < |found| && found[i] == m;
        assert m.name == e.captures[caps[i].index];
      }
    }
  }

  // ---- the `lines` format -------------------------------------------------

  /** The file name a line starts with. */
  function DisplayName(f: ExtractedFile, decode: Utf8Decoder): string
  {
    match f.file
    case None => "NO FILE"
    case Some(p) =>
      match decode(PathText(p))
      case Ok(s) => s
      case Err(_) => "NON-UTF8 FILENAME"
  }

  /** One line: `file:row:column:name:text` with the start position 1-indexed. */
  function Line(filename: string, m: ExtractedMatch): string
  {
    filename + ":" + ToDecimal(m.start.row + 1) + ":" + ToDecimal(m.start.column + 1) + ":"
      + m.name + ":" + m.text + "\n"
  }

  /** The lines of a sequence of matches, in order. */
  function Lines(filename: string, ms: seq<ExtractedMatch>): string
  {
    if ms == [] then "" else Lines(filename, ms[..|ms| - 1]) + Line(filename, ms[|ms| - 1])
  }

  /** `Display for ExtractedFile`: one line per match, written in a loop. */
  method WriteLines(f: ExtractedFile, decode: Utf8Decoder) returns (out: string)
    ensures out == Lines(DisplayName(f, decode), f.matches)
  {
    var filename := DisplayName(f, decode);
    out := "";
    for i := 0 to |f.matches|
      invariant out == Lines(filename, f.matches[..i])
    {
      assert f.matches[..i + 1][..i] == f.matches[..i];
      out := out + Line(filename, f.matches[i]);
    }
    assert f.matches[..|f.matches|] == f.matches;
  }

  function NewlineCount(s: string): nat
  {
    if s == [] then 0 else (if s[0] == '\n' then 1 else 0) + NewlineCount(s[1..])
  }

  lemma {:induction false} NewlineCountAppend(a: string, b: string)
    ensures NewlineCount(a + b) == NewlineCount(a) + NewlineCount(b)
  {
    if a != [] {
      NewlineCountAppend(a[1..], b);
      assert (a + b)[0] == a[0] && (a + b)[1..] == a[1..] + b;
    } else {
      assert a + b == b;
    }
  }

  lemma {:induction false} NoNewlineCount(s: string)
    requires '\n' !in s
    ensures NewlineCount(s) == 0
  {
    if s != [] {
      NoNewlineCount(s[1..]);
    }
  }

  lemma DigitsHaveNoNewline(n: nat)
    ensures '\n' !in ToDecimal(n)
  {
  }

  /**
    When the file name, the capture names and the texts hold no line break,
    the lines output has exactly one line per match. (A text spanning several
    rows is printed as it is and then takes several lines.)
   */
  lemma {:induction false} OneLinePerMatch(filename: string, ms: seq<ExtractedMatch>)
    requires '\n' !in filename
    requires forall m :: m in ms ==> '\n' !in m.name && '\n' !in m.text
    ensures NewlineCount(Lines(filename, ms)) == |ms|
  {
    if ms != [] {
      var m := ms[|ms| - 1];
      OneLinePerMatch(filename, ms[..|ms| - 1]);
      DigitsHaveNoNewline(m.start.row + 1);
      DigitsHaveNoNewline(m.start.column + 1);
      var body := filename + ":" + ToDecimal(m.start.row + 1) + ":" + ToDecimal(m.start.column + 1) + ":"
        + m.name + ":" + m.text;
      assert '\n' !in body;
      NoNewlineCount(body);
      NewlineCountAppend(body, "\n");
      NewlineCountAppend(Lines(filename, ms[..|ms| - 1]), Line(filename, m));
    }
  }

  // ---- JSON positions -----------------------------------------------------

  /** The `{"row": .., "column": ..}` object `serialize_point` writes. */
  datatype JsonPoint = JsonPoint(row: nat, column: nat)

  /** `serialize_point`: positions leave the program 1-indexed. */
  function SerializePoint(p: Point): (j: JsonPoint)
    ensures j.row >= 1 && j.column >= 1
  {
    JsonPoint(p.row + 1, p.column + 1)
  }

  /** Reading a serialised point back: the inverse of `SerializePoint`. */
  function DeserializePoint(j: JsonPoint): Option<Point>
  {
    if j.row >= 1 && j.column >= 1 then Some(Point(j.row - 1, j.column - 1)) else None
  }

  lemma SerializePointRoundTrip(p: Point)
    ensures DeserializePoint(SerializePoint(p)) == Some(p)
  {
  }

  /** The lines format and the JSON formats print the same 1-indexed start position. */
  lemma LinesAgreeWithJson(filename: string, m: ExtractedMatch)
    ensures Line(filename, m) == filename + ":" + ToDecimal(SerializePoint(m.start).row) + ":"
      + ToDecimal(SerializePoint(m.start).column) + ":" + m.name + ":" + m.text + "\n"
  {
  }

  // ---- derived order ------------------------------------------------------

  /** The derived order of `Point`: row, then column. */
  function CmpPoint(a: Point, b: Point): Cmp
  {
    Then(CmpInt(a.row, b.row), CmpInt(a.column, b.column))
  }

  /** The derived order of `ExtractedMatch`: kind, name, text, start, end. */
  function CmpMatch(a: ExtractedMatch, b: ExtractedMatch): Cmp
  {
    Then(CmpString(a.kind, b.kind),
    Then(CmpString(a.name, b.name),
    Then(CmpString(a.text, b.text),
    Then(CmpPoint(a.start, b.start), CmpPoint(a.end, b.end)))))
  }

  /** `Option<PathBuf>`: no path before any path, then the path order. */
  function CmpFileName(a: Option<Path>, b: Option<Path>): Cmp
  {
    match (a, b)
    case (None, None) => Equal
    case (None, Some(_)) => Less
    case (Some(_), None) => Greater
    case (Some(p), Some(q)) => CmpPath(p, q)
  }

  /** The derived order of `ExtractedFile`: file, file type, then the matches lexicographically. */
  function CmpFile(a: ExtractedFile, b: ExtractedFile): Cmp
  {
    Then(CmpFileName(a.file, b.file),
    Then(CmpString(a.fileType, b.fileType), Lex(a.matches, b.matches, CmpMatch)))
  }

  lemma CmpPointTotal()
    ensures TotalOrder(CmpPoint)
  {
  }

  lemma CmpMatchTotal()
    ensures TotalOrder(CmpMatch)
  {
    CmpStringTotal();
    CmpPointTotal();
  }

  lemma CmpFileNameTotal()
    ensures TotalOrder(CmpFileName)
  {
    CmpPathTotal();
  }

  /** The order `--sort` uses is a total order whose ties are equal files. */
  lemma CmpFileTotal()
    ensures TotalOrder(CmpFile)
  {
    CmpFileNameTotal();
    CmpStringTotal();
    CmpMatchTotal();
    LexTotal(CmpMatch);
    forall a: seq<ExtractedMatch>, b: seq<ExtractedMatch> ensures Lex(a, b, CmpMatch) == Equal <==> a == b {
      LexEqual(a, b, CmpMatch);
    }
    forall a: seq<ExtractedMatch>, b: seq<ExtractedMatch> ensures Lex(b, a, CmpMatch) == Flip(Lex(a, b, CmpMatch)) {
      LexFlip(a, b, CmpMatch);
    }
    forall a: seq<ExtractedMatch>, b: seq<ExtractedMatch>, c: seq<ExtractedMatch>
      | Lex(a, b, CmpMatch) == Less && Lex(b, c, CmpMatch) == Less
      ensures Lex(a, c, CmpMatch) == Less
    {
      LexTrans(a, b, c, CmpMatch);
    }
  }
}
