/**
  language.rs: the name a grammar is loaded under, where its shared library
  is looked for, which symbol is called in it, and the file-type name the
  `ignore` crate knows the language by. Loading the library and calling the
  symbol are not part of this model.
 */
module Language {
  import opened Wrappers
  import opened Paths

  /** The three `#[cfg]` arms that choose `DYLIB_EXTENSION`. */
  datatype Platform = Linux | Windows | MacOS

  function DylibExtension(p: Platform): string
  {
    match p
    case Linux => "so"
    case Windows => "dll"
    case MacOS => "dylib"
  }

  /** A loaded grammar, known by the name it was loaded under (the tree-sitter handle is not modelled). */
  datatype Language = Language(name: string)

  predicate IsAsciiUpper(c: char)
  {
    'A' <= c <= 'Z'
  }

  function AsciiLower(c: char): char
  {
    if IsAsciiUpper(c) then (c as int + 32) as char else c
  }

  /** `str::to_ascii_lowercase`: `A`..`Z` become `a`..`z`, every other character stays. */
  function ToAsciiLowercase(s: string): (r: string)
    ensures |r| == |s|
    ensures forall i :: 0 <= i < |s| ==> !IsAsciiUpper(r[i])
    ensures forall i :: 0 <= i < |s| && !IsAsciiUpper(s[i]) ==> r[i] == s[i]
    ensures forall i :: 0 <= i < |s| && IsAsciiUpper(s[i]) ==> r[i] as int == s[i] as int + 32
  {
    if s == [] then [] else [AsciiLower(s[0])] + ToAsciiLowercase(s[1..])
  }

  /** Lowercasing twice is lowercasing once, so a stored name is its own lowercase form. */
  lemma LowercaseIdempotent(s: string)
    ensures ToAsciiLowercase(ToAsciiLowercase(s)) == ToAsciiLowercase(s)
  {
  }

  /** `str::replace('-', "_")`. */
  function ReplaceDash(s: string): (r: string)
    ensures |r| == |s| && '-' !in r
    ensures forall i :: 0 <= i < |s| ==> r[i] == (if s[i] == '-' then '_' else s[i])
  {
    if s == [] then [] else [if s[0] == '-' then '_' else s[0]] + ReplaceDash(s[1..])
  }

  const SYMBOL_PREFIX: string := "tree_sitter_"

  /** A name that `join` adds as exactly one file name. */
  predicate PlainName(s: string)
  {
    s != "" && s != "." && s != ".." && '/' !in s
  }

  /** What `get_language` computes before touching the library: the stored name, the library path, the symbol. */
  datatype Location = Location(language: Language, libraryPath: Path, symbol: string)

  /**
    The string and path construction of `Language::get_language`: lowercase
    the name, join it to the runtime directory, replace its extension by the
    platform's shared-library extension, and name the `tree_sitter_` symbol.
   */
  method Locate(platform: Platform, runtimePath: Path, name: string) returns (loc: Location)
    ensures loc.language.name == ToAsciiLowercase(name)
    ensures |loc.symbol| == |SYMBOL_PREFIX| + |name|
    ensures loc.symbol[..|SYMBOL_PREFIX|] == SYMBOL_PREFIX
    ensures forall i :: 0 <= i < |name| ==>
      loc.symbol[|SYMBOL_PREFIX| + i] == (if name[i] == '-' then '_' else AsciiLower(name[i]))
    ensures PlainName(loc.language.name) ==>
      loc.libraryPath == runtimePath
        + [Normal(Stem(Utf8Encode(loc.language.name)) + [DOT] + Utf8Encode(DylibExtension(platform)))]
  {
    var lowered := ToAsciiLowercase(name);
    var libraryPath := Join(runtimePath, Utf8Encode(lowered));
    var (withExtension, _) := SetExtension(libraryPath, Utf8Encode(DylibExtension(platform)));
    libraryPath := withExtension;
    var symbol := SYMBOL_PREFIX + ReplaceDash(lowered);
    if PlainName(lowered) {
      var joined := Join(runtimePath, Utf8Encode(lowered));
      PlainNameEncoding(lowered);
      JoinPlainName(runtimePath, Utf8Encode(lowered));
      var ext := Utf8Encode(DylibExtension(platform));
      var enc := Utf8Encode(lowered);
      assert joined == runtimePath + [Normal(enc)];
      assert joined[..|joined| - 1] == runtimePath;
      assert FileName(joined) == enc;
      assert |ext| > 0;
      assert SetExtension(joined, ext).0 == runtimePath + [Normal(Stem(enc) + ([DOT] + ext))];
      assert Stem(enc) + ([DOT] + ext) == Stem(enc) + [DOT] + ext;
    }
    loc := Location(Language(lowered), libraryPath, symbol);
  }

  /** The encoding of a plain name is a plain file name: not empty, not `.` or `..`, without a slash. */
  lemma PlainNameEncoding(s: string)
    requires PlainName(s)
    ensures var e := Utf8Encode(s); e != [] && e != [DOT] && e != [DOT, DOT] && SLASH !in e
  {
    EncodeAscii(s, '/');
    var e := Utf8Encode(s);
    if e == [DOT] || e == [DOT, DOT] {
      EncodesDots(s);
    }
  }

  /** Only `.` and `..` encode to one or two dots. */
  lemma EncodesDots(s: string)
    requires Utf8Encode(s) == [DOT] || Utf8Encode(s) == [DOT, DOT]
    ensures s == "." || s == ".."
  {
    assert s != [];
    var e0 := EncodeChar(s[0]);
    assert Utf8Encode(s) == e0 + Utf8Encode(s[1..]);
    assert Utf8Encode(s)[0] == DOT;
    assert e0[0] == DOT;
    assert |e0| == 1;
    assert s[0] as int == '.' as int;
    var rest := Utf8Encode(s[1..]);
    if rest != [] {
      assert s[1..] != [];
      var e1 := EncodeChar(s[1]);
      assert s[1..] == [s[1]] + s[2..];
      assert rest == e1 + Utf8Encode(s[2..]);
      assert |e0| == 1 && Utf8Encode(s) == [DOT, DOT];
      assert Utf8Encode(s)[1..] == rest;
      assert rest == [DOT];
      assert e1[0] == DOT;
      assert |e1| == 1;
      assert s[1] as int == '.' as int;
      assert |Utf8Encode(s[2..])| == 0;
      assert s == [s[0], s[1]];
    } else {
      assert s == [s[0]];
    }
  }

  /** The 15 names `name_for_types_builder` knows, in the order of its table. */
  const TYPES_BUILDER_LANGUAGES: seq<string> :=
    ["c", "cpp", "elixir", "elm", "go", "haskell", "java", "javascript",
     "markdown", "nix", "php", "python", "ruby", "rust", "typescript"]

  /** `Language::name_for_types_builder`; `None` is the panic on a name outside the table. */
  function NameForTypesBuilder(l: Language): Option<string>
  {
    match l.name
    case "c" => Some("c")
    case "cpp" => Some("cpp")
    case "elixir" => Some("elixir")
    case "elm" => Some("elm")
    case "go" => Some("go")
    case "haskell" => Some("haskell")
    case "java" => Some("java")
    case "javascript" => Some("js")
    case "markdown" => Some("markdown")
    case "nix" => Some("nix")
    case "php" => Some("php")
    case "python" => Some("py")
    case "ruby" => Some("ruby")
    case "rust" => Some("rust")
    case "typescript" => Some("ts")
    case _ => None
  }

  /** The table is defined exactly on its 15 names; three are abbreviated and the rest map to themselves. */
  lemma TypesBuilderTable(l: Language)
    ensures NameForTypesBuilder(l).Some? <==> l.name in TYPES_BUILDER_LANGUAGES
    ensures l.name == "javascript" ==> NameForTypesBuilder(l) == Some("js")
    ensures l.name == "python" ==> NameForTypesBuilder(l) == Some("py")
    ensures l.name == "typescript" ==> NameForTypesBuilder(l) == Some("ts")
    ensures l.name in TYPES_BUILDER_LANGUAGES && l.name !in {"javascript", "python", "typescript"} ==>
      NameForTypesBuilder(l) == Some(l.name)
  {
  }

  /** No two languages in the table share a file-type name. */
  lemma TypesBuilderInjective(a: Language, b: Language)
    requires NameForTypesBuilder(a).Some? && NameForTypesBuilder(b).Some?
    requires NameForTypesBuilder(a) == NameForTypesBuilder(b)
    ensures a == b
  {
  }

  /** `lua` is one of the grammars the build compiles, yet the table has no entry for it. */
  lemma LuaHasNoTypesBuilderName()
    ensures NameForTypesBuilder(Language("lua")).None?
  {
  }
}
