# tree-grepper, modelled in Dafny

tree-grepper searches source files with tree-sitter queries. It is run as
`tree-grepper -q LANGUAGE QUERY [-q LANGUAGE QUERY …] [PATHS…]`. This model
covers the sequential logic around the tree-sitter engine:

- combining the `-q` pairs into one query per language (`cli.dfy`);
- building an extractor that disables helper captures whose names start with `_` (`extractor.dfy`);
- turning the engine's matches over one file into extracted matches (`extractor.dfy`);
- the `lines` text and the 1-indexed JSON positions (`extractor.dfy`);
- the derived order `--sort` uses, and an in-place sort (`extractor.dfy`, `ordering.dfy`);
- gathering per-file results (`driver.dfy`);
- the highlight and context line ranges of the `pretty` format (`driver.dfy`);
- the start of the directory walk (`driver.dfy`);
- how an error becomes an exit code (`driver.dfy`);
- the string work of loading a language: name, library path and symbol (`language.dfy`).

The tree-sitter engine is not modelled. It enters as values: a `Registry`
of the two calls cli.rs makes (`Language::from_str`, `parse_query`), a `Run`
saying what parsing and querying one file produced, and a UTF-8 decoder.

Supporting modules:

- `wrappers.dfy`: `Option` and `Result`.
- `errors.dfy`: `anyhow` errors, as a root cause plus a chain of context messages.
- `ordering.dfy`: three-way comparison, lexicographic order, total orders, and sorting. It proves that a sorted permutation is unique, so stable and unstable sorts agree on these types.
- `decimal.dfy`: `usize` as text, in both directions.
- `paths.dfy`: `PathBuf` as a list of components, with `join`, `set_extension` and the component order.
- `engine.dfy`: the engine boundary.

The source has two loops over the `-q` values:

- The first loop of `Invocation::extractors` fills a map in place. `Cli.Extractors` models it with a `for` loop whose invariant ties the map to the function `Cli.CombineQueries`. The lemmas about that function state what the map holds.
- The second loop walks the map in `HashMap` order, which is unspecified. The model picks the next language with `:|`, so its contracts hold for every order.

`Extractor::new` disables captures one at a time in a loop. `extracted_files.sort()` sorts in place. Both are methods over mutable state (`Extractor.NewExtractor`, `Ordering.SortInPlace` on an `array`). The directory walker builder is a class (`Driver.WalkBuilder`).

## Model

| member | source | states |
|---|---|---|
| Extractor.NewExtractor | src/extractor.rs:19-34 | the capture table is kept unchanged; exactly the names starting with `_` are added to the query's disabled set, and every other name keeps its state |
| Extractor.ExtractCaptures | src/extractor.rs:72-99 | succeeds iff every flattened capture's bytes decode; then one match per capture, in order, named `captures[capture.index]`, with the node's kind, text and positions; otherwise the error of the first capture that does not decode, with context "could not extract text from capture" |
| Extractor.ExtractFromText | src/extractor.rs:50-110 | a rejected language and a missing tree are the two error messages; with matches: `Ok(None)` iff no capture, an error iff some capture's text is not UTF-8 (and then the error of the first such capture), and otherwise a file with the given path, the language's name as file type and the non-empty list of extracted matches |
| Extractor.ExtractFromFile | src/extractor.rs:40-48 | a read failure gets the context "could not read file"; otherwise it is extraction from the bytes under `Some(path)` |
| Extractor.FlattenAppend | src/extractor.rs:72-74 | flattening the matches of two batches is the captures of the first followed by those of the second |
| Extractor.FlattenAt | src/extractor.rs:72-74 | capture `k` of match `j` appears in the flattened list, after the captures of all earlier matches |
| Extractor.HelpersNeverReported | src/extractor.rs:22-26 | if every helper name is disabled and the engine honours disabled captures, no extracted match has a name starting with `_` |
| Extractor.WriteLines | src/extractor.rs:120-146 | the `Display` loop writes exactly `Lines`: one `file:row+1:col+1:name:text` line per match, with `NO FILE` or `NON-UTF8 FILENAME` as the file name when there is no usable path |
| Extractor.OneLinePerMatch | src/extractor.rs:132-142 | when the file name, the names and the texts hold no line break, the output has exactly as many lines as matches |
| Extractor.NewlineCountAppend | src/extractor.rs:132-142 | line breaks of concatenated output add up |
| Extractor.NoNewlineCount | src/extractor.rs:132-142 | text without a line break counts zero lines |
| Extractor.DigitsHaveNoNewline | src/extractor.rs:137-138 | a printed row or column never holds a line break |
| Extractor.SerializePoint | src/extractor.rs:159-167 | serialised rows and columns are at least 1 |
| Extractor.SerializePointRoundTrip | src/extractor.rs:164-165 | subtracting one from a serialised point gives back the 0-indexed point |
| Extractor.LinesAgreeWithJson | src/extractor.rs:137-138 | the `lines` format prints the same 1-indexed start as the JSON formats |
| Extractor.CmpPointTotal | src/extractor.rs:154-156 | the point order is a total order whose ties are equal points |
| Extractor.CmpMatchTotal | src/extractor.rs:148-157 | the derived order of matches (kind, name, text, start, end) is a total order whose ties are equal matches |
| Extractor.CmpFileNameTotal | src/extractor.rs:115 | `None` before any path, then the path order: a total order |
| Extractor.CmpFileTotal | src/extractor.rs:113-118 | the derived order of extracted files (file, file type, matches) is a total order whose ties are equal files |
| Cli.Pairs | src/cli.rs:257 | `tuples()` yields half as many pairs as values (rounded down), pair `i` being values `2i` and `2i+1`; an odd last value is dropped |
| Cli.CombineOk | src/cli.rs:257-275 | the first loop succeeds iff every pair's language is known and its query compiles on its own |
| Cli.CombineContents | src/cli.rs:257-275 | on success the map has exactly one key per language named, holding that language's query texts (each with `@query` appended when it has no capture) concatenated in command-line order |
| Cli.CombineFirstError | src/cli.rs:258-264 | on failure the error is that of the first pair that fails, with "could not parse language" or "could not parse query" as context |
| Cli.CombineErrorPersists | src/cli.rs:258-264 | once a prefix of the pairs fails, the whole loop fails with that error |
| Cli.QueriesForSnoc | src/cli.rs:270-274 | one more pair appends its text to its own language only |
| Cli.QueriesForAbsent | src/cli.rs:270-274 | a language no pair names gets no text |
| Cli.LanguagesSnoc | src/cli.rs:270-274 | one more pair adds its language to the keys |
| Cli.SamePairTwice | src/cli.rs:270-274 | the same pair given twice is not deduplicated: its language's text is the query twice |
| Cli.FirstPredicate | src/cli.rs:282-286 | none iff no pattern has a general predicate; otherwise the first operator of the first pattern that has one |
| Cli.BuildOne | src/cli.rs:279-288 | one language's extractor exists iff its combined text compiles and has no general predicate, and it is the extractor built from that query; otherwise "could not parse combined query" or "Unknown predicate '<op>'" |
| Cli.BuiltStep | src/cli.rs:278-289 | adding the extractor of one more language keeps one distinct extractor per language done |
| Cli.BuildExtractors | src/cli.rs:277-291 | succeeds iff every language's combined query checks out, with exactly one extractor per language (in some order); otherwise the error of a language that fails |
| Cli.Extractors | src/cli.rs:238-292 | no values is the internal error; a failing pair is the first loop's error; otherwise the result is that of checking every combined query: one extractor per distinct language, built from that language's concatenated queries |
| Cli.ParseFormatExact | src/cli.rs:315-328 | exactly `lines`, `json`, `json-lines`, `pretty-json` and `pretty` are accepted, each naming its own format; any other text is "unknown format. See --help for valid formats." |
| Cli.ParseFormatName | src/cli.rs:306-328 | every format's name parses back to that format |
| Cli.ParseOrPanic | src/cli.rs:228-233 | a `usize` text is its value; any other text panics with "called `Result::unwrap()` on an `Err` value: " followed by the `Debug` form of its `ParseIntError` |
| Cli.WindowLines | src/cli.rs:232-233 | `--after` (`--before`) if given, else `--context`, else 0 |
| Cli.TabWidth | src/cli.rs:228 | `--tab-width` if given, else 4 |
| Cli.ContextAppliesToBothSides | src/cli.rs:232-233 | `--context n` alone gives `n` lines on a side |
| Cli.ArgPaths | src/cli.rs:294-303 | succeeds iff PATHS has values, one path per value, in order |
| Cli.ShowTreeInvocation | src/cli.rs:205-216 | `--show-tree` succeeds iff the language is known and exactly one path is given; more or fewer paths fail with "need exactly one path to print a tree" |
| Cli.FromArgs | src/cli.rs:203-235 | `--languages` wins, then `--show-tree`; otherwise a query, which succeeds iff every option decodes (the pairs combine and check out, PATHS and the format are present and valid, the numbers parse), and whose every option is then the decoded command-line value; a failing query stops at the first option that does not decode, in the order extractors, PATHS, format, theme, tab width, after, before, with exactly that step's error |
| Driver.Collect | src/main.rs:112-118 | succeeds iff no file failed, keeping at most one file per result; a failure is one of the files' errors |
| Driver.CollectAppend | src/main.rs:112-118 | gathering two batches gives the files of the first followed by those of the second |
| Driver.CollectOne | src/main.rs:112-116 | `Ok(None)` contributes nothing, `Ok(Some(f))` contributes `f`, `Err(e)` fails with `e` |
| Driver.CollectKeeps | src/main.rs:112-118 | a file is kept iff some result carries it |
| Driver.CollectFirstError | src/main.rs:117-118 | the error reported is that of the first failing file |
| Driver.SortFiles | src/main.rs:120-122 | in place, the files become a sorted permutation of themselves, which is the unique one |
| Driver.AnnotateFile | src/main.rs:106-110 | a file's success passes unchanged; its failure keeps its cause and gets "could not extract matches from" and the file's name as the outermost context |
| Driver.GatherFiles | src/main.rs:98-122 | fails iff some file fails, and then with that file's cause under the contexts "couldn't extract matches from files", "could not extract matches from" plus its name, and its own contexts; without `--sort` the files keep their order, with it they are the sorted permutation |
| Driver.WriteAllLines | src/main.rs:125-129 | the `lines` output is each file's lines, file after file |
| Driver.OneLinePerMatchOfAllFiles | src/main.rs:125-129 | the whole `lines` output has one line per match of every file |
| Driver.HighlightRange | src/main.rs:157-164 | the highlight starts at the 1-indexed start row, so at line 1 or later |
| Driver.HighlightCoversMatch | src/main.rs:157-164 | the highlighted lines are exactly those the match has a character on, and the range is empty only for an empty match at a line start |
| Driver.HighlightAgreesWithLines | src/main.rs:163 | the first highlighted line is the line number the `lines` format prints |
| Driver.ContextRangeAsWritten | src/main.rs:184 | the window's lower line is `s - before`, wrapping around modulo 2^64 when `before > s` |
| Driver.ContextRangeWrapsAround | src/main.rs:184 | a match on line 2 with 5 lines before gets the window starting at line 2^64-3, which hides the match |
| Driver.ContextRange | src/main.rs:184 | the corrected window ends `after` lines below the highlight |
| Driver.ContextRangeCovers | src/main.rs:178-186 | the corrected window holds every highlighted line, and exactly the lines up to `before` above and `after` below |
| Driver.ContextRangeAgrees | src/main.rs:184 | where nothing wraps, the corrected window equals the written one |
| Driver.PrettyRanges | src/main.rs:153-186 | one highlight and one window per match, in order; the window ends `after` lines below the highlight; it holds the highlight when `before` does not exceed the first highlighted line, and otherwise wraps around and starts below that line, hiding it |
| Driver.PrettyRangesCorrected | src/main.rs:153-186 | with the saturating window, one highlight and one window per match, in order, each window holding its highlight |
| Driver.PrettyRangesAgree | src/main.rs:184 | when `before` never exceeds a match's first line, the written and corrected ranges are equal |
| Driver.WalkBuilder.constructor | src/main.rs:199 | the builder starts with the first path as its only root and every git filter on |
| Driver.WalkBuilder.Add | src/main.rs:200-202 | a path is added after the other roots |
| Driver.WalkBuilder.SetGitFilters | src/main.rs:211-214 | all three git filters take the `--no-gitignore` setting |
| Driver.FindFiles | src/main.rs:196-214 | no path fails with "I need at least one file or directory to walk!"; otherwise the roots are the paths in order and the git filters follow the option |
| Driver.TryMain | src/main.rs:49-64 | a configuration error keeps its cause and gains "couldn't get a valid configuration from the command-line options" as its outermost context; `--languages` succeeds; a query or tree succeeds iff its action does, and its failure gains "couldn't perform the query" or "couldn't show the tree" |
| Driver.Finish | src/main.rs:22-47 | exit 0 iff success with a good flush or a broken pipe, and then nothing is reported; 101 iff a panic or a failed flush, reporting the panic's message ("failed to flush buffer!: " and the `io::Error`'s `Debug` form for the flush); 1 for every other error, reporting a clap error's own text and any other error in its debug form |
| Driver.ContextDoesNotChangeExit | src/main.rs:26-43 | contexts added on the way up never change the exit code |
| Driver.BrokenPipeIsSuccess | src/main.rs:26-33 | a broken pipe while querying ends the process quietly with 0 |
| Language.Locate | src/language.rs:20-39 | the stored name is the ASCII-lowercased input; the symbol is `tree_sitter_` then the lowercased name with every `-` turned into `_`; for a plain name, the library path is the runtime path (which may be empty) plus one file named after the lowercased name's stem (that name up to its last dot, as `set_extension` replaces an extension), a dot and `so`, `dll` or `dylib` |
| Language.ToAsciiLowercase | src/language.rs:21 | same length, no ASCII capital left, capitals lowered by 32 and every other character kept |
| Language.LowercaseIdempotent | src/language.rs:21 | lowercasing twice is lowercasing once |
| Language.ReplaceDash | src/language.rs:27 | same length, no `-` left, each `-` becoming `_` and every other character kept |
| Language.TypesBuilderTable | src/language.rs:45-63 | defined exactly on the 15 listed names; `javascript`, `python` and `typescript` become `js`, `py`, `ts`, and the others map to themselves |
| Language.TypesBuilderInjective | src/language.rs:47-61 | two languages with the same file-type name are the same language |
| Language.LuaHasNoTypesBuilderName | src/language.rs:62 | `lua` has no entry, so asking for its file-type name panics |
| Paths.JoinPlainName | src/language.rs:22 | joining a plain name onto any base, the empty one included, appends one component |
| Paths.SetExtensionEnds | src/language.rs:23 | setting a non-empty extension on a path ending in a file name keeps the parent and makes the file name its stem, a dot and the extension |
| Decimal.ToDecimal | src/extractor.rs:137-138 | a number prints as a non-empty string of digits without leading zero |
| Decimal.DecimalValue | src/extractor.rs:137-138 | the printed digits denote the number |
| Decimal.ParseUsize | src/cli.rs:228-233 | the text parses iff, after one optional `+`, it is a non-empty run of digits whose value is below 2^64; the number parsed is that value |
| Engine.Query.DisableCapture | src/extractor.rs:24 | a name in the capture table joins the disabled set; any other name leaves the query unchanged; the table and predicates never change |
| Errors.WithContext | src/cli.rs:258-264 | `.context` keeps a success, and wraps an error's cause unchanged with the message as its outermost context |
| Decimal.FromStrAgrees | src/cli.rs:228-233 | the digit loop with error kinds accepts exactly the texts `Decimal.ParseUsize` accepts, with the same value |
| Decimal.FromStrOverflow | src/cli.rs:228-233 | digits alone whose value passes `usize::MAX` fail with `PosOverflow` |
| Decimal.FromStrInvalidDigit | src/cli.rs:228-233 | a character that is not a digit, met before the digits overflow, fails with `InvalidDigit` |
| Decimal.ParseToDecimal | src/cli.rs:228-233 | every `usize` printed in decimal parses back to itself |
| Decimal.ToDecimalInjective | src/extractor.rs:137-138 | different numbers print differently |
| Ordering.SortInPlace | src/main.rs:120-122 | sorting an array in place with a total order leaves it sorted and a permutation of what it held |
| Ordering.SortedPermutationUnique | src/main.rs:120-122 | two sorted permutations of the same files are equal, so the stable sort's result is determined |
| Ordering.InsertionSortCorrect | src/main.rs:120-122 | the reference sort returns a sorted permutation |
| Ordering.LexTotal | src/extractor.rs:113-118 | lexicographic order over a total order is total |
| Ordering.CmpStringTotal | src/extractor.rs:148-152 | string order is total |
| Paths.CmpPathTotal | src/extractor.rs:115 | path order, component by component, is total |

## Left out

- Concurrency: the `rayon` parallel extraction and the `crossbeam` channel of the parallel walker. Per-file results are gathered sequentially, in the walker's order.
- Driver.Collect: when several files fail, `collect` on a parallel iterator may report any one of the errors. The model reports the first, and its contract promises only "one of them".
- Filesystem I/O: reading files, and walking directories with `.gitignore` filtering. A read enters as an `Outcome` of bytes; the walk's output is not modelled, only its set-up.
- Dynamic library loading and the FFI call of the language symbol. `Language.Locate` stops at the path and symbol it would load.
- The tree-sitter engine: parsing, matching, capture tables, general predicates, `disable_capture`'s effect on matching, and node kinds and positions. These are values passed in. UTF-8 validity is a decoder function passed in.
- `Language::from_str` and `parse_query`, which cli.rs calls, are parameters in `Engine.Registry`. The `Language` type carries only its name.
- clap parsing, `--help` and `--version`. `Cli.FromArgs` starts from the values clap produces, with its defaults already applied (`.` for PATHS, `pretty`, the theme).
- Output rendering by `bat`, `serde_json`, `show_tree` and the `show_languages` stub. Only `serialize_point`'s +1 mapping and the pretty-format line ranges are modelled.
- `extractor_chooser` and `tree_view` are not part of this model.
- The file-type name mapping is modelled, but `QueryOpts::extractor_chooser`, which uses it, is not.
- build.rs is a build-time compilation driver. It appears only in `Language.LuaHasNoTypesBuilderName`.
- The global bump allocator.
- Paths follow Unix rules. Windows prefixes and separators are not modelled.
- Language.Locate: the library path is stated only for plain names. A name containing `/` or one equal to `.` or `..` changes how `join` and `set_extension` behave, and that is not specified.
- Path display: a path is kept as its components, as Rust's `PathBuf` compares and orders it. In the `lines` output, `to_str` is modelled as the UTF-8 decoder applied to the text rebuilt from those components (`Paths.PathText`), not to the path's original bytes.
- Extractor.WriteLines: the file name printed is the path normalised to its components. A doubled slash, an interior `.` segment and a trailing slash are dropped, so `a//b.rs` prints as `a/b.rs`. Paths built by the directory walk from the command-line roots have this form except where a root was written with such segments.
- Failure contexts: `Path::display` in the context `Driver.AnnotateFile` adds is not computed. The displayed name is an input string, given with each result in `Driver.Item`. Its lossy replacement of bytes that are not UTF-8 is not modelled.
- Extractor.SerializePoint, Extractor.WriteLines: `row + 1` and `column + 1` cannot overflow in the model. In the source they are `usize` additions.
- Driver.ContextRange: `e + after` is not wrapped. It would overflow only near 2^64.
- Driver.PrettyRanges: `file.file.unwrap()` in the pretty printer is not modelled. Files from the walk always have a path.
- Driver.PrettyRanges: models the wrapping subtraction of the source and promises that a window holds its highlight only when `before` does not exceed the first highlighted line. A debug build would panic on the same input instead. Rows are required to fit a `usize` with room for the `+ 1`, and `e + after` is not wrapped.
- Panics are modelled as an error whose cause is `Panic`. A real panic unwinds without picking up context messages, and the exit code (101) is the same either way.
- A missing theme panics in `Cli.FromArgs` as it does in the source. clap always supplies the default `gruvbox-dark`, so this cannot happen.
- Parse error kinds: `Decimal.FromStr` follows the standard library's digit loop, which checks that a character is a digit before it checks for overflow. The empty text is `Empty`, and a lone `+` is `InvalidDigit`.
- The `io::Error` of a failed flush is not modelled. Its `Debug` text is an input to `Driver.Finish`.

## Findings

| source | as written | input that shows it | evidently intended | confidence | as-written member | corrected member |
|---|---|---|---|---|---|---|
| src/main.rs:184 | `LineRange::new(s - opts.before_lines, e + opts.after_lines)` subtracts in `usize`. A release build wraps around; a debug build panics. | `--format pretty -B 5`, with a match on line 2 (s = 2): the lower bound becomes 2^64-3, so the match's own line falls outside its window | the window starts at line `max(s - before, 0)`, as a saturating subtraction would give | not executed | Driver.ContextRangeAsWritten, Driver.ContextRangeWrapsAround | Driver.ContextRange, Driver.ContextRangeCovers, Driver.PrettyRangesCorrected |
