/**
  The boundary with tree-sitter, which this model does not look inside:
  positions, captured nodes, matches, the parts of a compiled query the
  program uses, and the capabilities it calls, passed in as values.
 */
module Engine {
  import opened Wrappers
  import opened Errors
  import opened Paths
  import opened Language

  /** `tree_sitter::Point`: a 0-indexed row and column. */
  datatype Point = Point(row: nat, column: nat)

  /** What the program reads from a captured node: its kind, its byte range and its two positions. */
  datatype Node = Node(kind: string, startByte: nat, endByte: nat, startPosition: Point, endPosition: Point)

  /** `QueryCapture`: a node and the index of its name in the query's capture table. */
  datatype Capture = Capture(node: Node, index: nat)

  /** `QueryMatch`: the captures of one pattern match, in the engine's order. */
  datatype QueryMatch = QueryMatch(patternIndex: nat, captures: seq<Capture>)

  /**
    What compiling a query text yields: the capture-name table, and for each
    pattern the operators of its general predicates (those the engine does
    not evaluate itself).
   */
  datatype QueryInfo = QueryInfo(captureNames: seq<string>, generalPredicates: seq<seq<string>>)

  /** `tree_sitter::Query`, with the set of capture names disabled on it. */
  datatype Query = Query(captureNames: seq<string>, generalPredicates: seq<seq<string>>, disabled: set<string>)
  {
    function PatternCount(): nat
    {
      |generalPredicates|
    }

    /** `Query::disable_capture(name)`: a name in the capture table stops being reported; any other name is ignored. */
    function DisableCapture(name: string): (q: Query)
      ensures q.captureNames == captureNames && q.generalPredicates == generalPredicates
      ensures name in captureNames ==> q.disabled == disabled + {name}
      ensures name !in captureNames ==> q.disabled == disabled
    {
      if name in captureNames then this.(disabled := disabled + {name}) else this
    }
  }

  /** A freshly compiled query: nothing is disabled yet. */
  function Compile(info: QueryInfo): Query
  {
    Query(info.captureNames, info.generalPredicates, {})
  }

  /** `Language::from_str` and `Language::parse_query`, the two calls cli.rs makes into the registry. */
  datatype Registry = Registry(
    fromStr: string -> Outcome<Language>,
    parseQuery: (Language, string) -> Outcome<QueryInfo>)

  /**
    What happens when a file goes through the parser and the query cursor:
    the parser refuses the language, returns no tree, or returns a tree on
    which the cursor yields these matches.
   */
  datatype Run = LanguageRejected(reason: string) | NoTree | Matched(matches: seq<QueryMatch>)

  /** `std::str::from_utf8` (RFC 3629): the text of some bytes, or the message of the `Utf8Error`. */
  type Utf8Decoder = seq<Byte> -> Result<string, string>
}
