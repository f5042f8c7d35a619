/**
  `std::path::PathBuf` on a Unix platform, as the component list that Rust's
  own equality, ordering and `file_name` use: `join` (push) and
  `set_extension`, the two operations language.rs applies, plus the byte
  text a path is printed from and the derived component order.
 */
module Paths {
  import opened Wrappers
  import opened Ordering

  type Byte = b: int | 0 <= b < 256

  /** An `OsStr`: on Unix, arbitrary bytes. */
  type OsStr = seq<Byte>

  const SLASH: Byte := 0x2F
  const DOT: Byte := 0x2E

  /** `std::path::Component` without Windows prefixes, in the order its derived `Ord` uses. */
  datatype Component = RootDir | CurDir | ParentDir | Normal(name: OsStr)

  type Path = seq<Component>

  /** The UTF-8 encoding of a string (section 3 of RFC 3629), as `&str` is stored. */
  function Utf8Encode(s: string): (r: OsStr)
    ensures |r| >= |s|
  {
    if s == [] then [] else EncodeChar(s[0]) + Utf8Encode(s[1..])
  }

  function EncodeChar(c: char): (r: OsStr)
    ensures 1 <= |r| <= 4
    ensures c as int < 0x80 <==> |r| == 1
    ensures |r| == 1 ==> r[0] == c as int
    ensures |r| > 1 ==> forall i :: 0 <= i < |r| ==> r[i] >= 0x80
  {
    var cp := c as int;
    if cp < 0x80 then [cp]
    else if cp < 0x800 then [0xC0 + cp / 0x40, 0x80 + cp % 0x40]
    else if cp < 0x1_0000 then [0xE0 + cp / 0x1000, 0x80 + (cp / 0x40) % 0x40, 0x80 + cp % 0x40]
    else [0xF0 + cp / 0x4_0000, 0x80 + (cp / 0x1000) % 0x40, 0x80 + (cp / 0x40) % 0x40, 0x80 + cp % 0x40]
  }

  /** An ASCII byte occurs in the encoding of a string only where that ASCII character occurs. */
  lemma {:induction false} EncodeAscii(s: string, c: char)
    requires c as int < 0x80
    ensures (c as int) in Utf8Encode(s) <==> c in s
  {
    if s != [] {
      EncodeAscii(s[1..], c);
      assert s == [s[0]] + s[1..];
      var e := EncodeChar(s[0]);
      assert (c as int) in e <==> c == s[0];
    }
  }

  /** The segments of a path text between slashes; empty segments included. */
  function SplitSlash(raw: OsStr): (r: seq<OsStr>)
    ensures |r| >= 1
    ensures forall i :: 0 <= i < |r| ==> SLASH !in r[i]
    ensures SLASH !in raw ==> r == [raw]
  {
    if raw == [] then [[]]
    else
      var rest := SplitSlash(raw[1..]);
      assert raw == [raw[0]] + raw[1..];
      if raw[0] == SLASH then [[]] + rest else [[raw[0]] + rest[0]] + rest[1..]
  }

  /** The components of segments that follow the start of a path: empty and `.` segments vanish. */
  function TailComponents(segments: seq<OsStr>): Path
  {
    if segments == [] then []
    else
      var s := segments[0];
      var c := if s == [] || s == [DOT] then [] else if s == [DOT, DOT] then [ParentDir] else [Normal(s)];
      c + TailComponents(segments[1..])
  }

  /** `Path::new(raw).components()`: a leading `/` is the root, a leading `.` is kept. */
  function ParsePath(raw: OsStr): Path
  {
    var segments := SplitSlash(raw);
    if raw != [] && raw[0] == SLASH then [RootDir] + TailComponents(segments[1..])
    else if segments[0] == [DOT] then [CurDir] + TailComponents(segments[1..])
    else TailComponents(segments)
  }

  /** `base.join(raw)`: an absolute `raw` replaces `base`; otherwise its components follow `base`'s. */
  function Join(base: Path, raw: OsStr): Path
  {
    if (raw != [] && raw[0] == SLASH) || base == [] then ParsePath(raw)
    else base + TailComponents(SplitSlash(raw))
  }

  /** The file name part of a path, when its last component is a normal one. */
  function FileName(p: Path): OsStr
    requires p != [] && p[|p| - 1].Normal?
  {
    p[|p| - 1].name
  }

  /** `Path::file_stem` of a file name: everything before the last dot, unless that dot leads the name. */
  function Stem(f: OsStr): (r: OsStr)
    ensures r <= f
    ensures f != [] ==> r != []
  {
    match LastIndexOf(f, DOT)
    case None => f
    case Some(k) => if k == 0 then f else f[..k]
  }

  function LastIndexOf(s: OsStr, b: Byte): (r: Option<nat>)
    ensures r.None? <==> b !in s
    ensures r.Some? ==> r.value < |s| && s[r.value] == b && b !in s[r.value + 1..]
  {
    if s == [] then None
    else if s[|s| - 1] == b then Some(|s| - 1)
    else
      var r := LastIndexOf(s[..|s| - 1], b);
      assert s[..|s| - 1] + [s[|s| - 1]] == s;
      r
  }

  /**
    `PathBuf::set_extension(ext)`: when the path ends in a file name, that
    name becomes its stem followed by `.` and `ext` (by the stem alone when
    `ext` is empty) and the result is true; otherwise nothing changes.
   */
  function SetExtension(p: Path, ext: OsStr): (Path, bool)
  {
    if p != [] && p[|p| - 1].Normal? then
      (p[..|p| - 1] + [Normal(Stem(FileName(p)) + (if ext == [] then [] else [DOT] + ext))], true)
    else (p, false)
  }

  /** The text a path is printed from: its components joined by `/`, with no slash doubled after the root. */
  function PathText(p: Path): OsStr
  {
    if p == [] then []
    else
      var first := match p[0]
        case RootDir => [SLASH]
        case CurDir => [DOT]
        case ParentDir => [DOT, DOT]
        case Normal(n) => n;
      if |p| == 1 then first
      else if p[0] == RootDir then first + PathText(p[1..])
      else first + [SLASH] + PathText(p[1..])
  }

  function ComponentRank(c: Component): nat
  {
    match c
    case RootDir => 1
    case CurDir => 2
    case ParentDir => 3
    case Normal(_) => 4
  }

  function CmpByte(a: Byte, b: Byte): Cmp
  {
    CmpInt(a, b)
  }

  /** The derived order on components: by variant, then normal names by their bytes. */
  function CmpComponent(a: Component, b: Component): Cmp
  {
    if a.Normal? && b.Normal? then Lex(a.name, b.name, CmpByte)
    else CmpInt(ComponentRank(a), ComponentRank(b))
  }

  /** `Ord for Path`: component by component. */
  function CmpPath(a: Path, b: Path): Cmp
  {
    Lex(a, b, CmpComponent)
  }

  lemma CmpComponentTotal()
    ensures TotalOrder(CmpComponent)
  {
    assert TotalOrder(CmpByte);
    forall a: Component, b: Component ensures CmpComponent(a, b) == Equal <==> a == b {
      if a.Normal? && b.Normal? { LexEqual(a.name, b.name, CmpByte); }
    }
    forall a: Component, b: Component ensures CmpComponent(b, a) == Flip(CmpComponent(a, b)) {
      if a.Normal? && b.Normal? { LexFlip(a.name, b.name, CmpByte); }
    }
    forall a: Component, b: Component, c: Component | CmpComponent(a, b) == Less && CmpComponent(b, c) == Less
      ensures CmpComponent(a, c) == Less
    {
      if a.Normal? && b.Normal? && c.Normal? { LexTrans(a.name, b.name, c.name, CmpByte); }
    }
  }

  lemma CmpPathTotal()
    ensures TotalOrder(CmpPath)
  {
    CmpComponentTotal();
    forall a: Path, b: Path ensures CmpPath(a, b) == Equal <==> a == b {
      LexEqual(a, b, CmpComponent);
    }
    forall a: Path, b: Path ensures CmpPath(b, a) == Flip(CmpPath(a, b)) {
      LexFlip(a, b, CmpComponent);
    }
    forall a: Path, b: Path, c: Path | CmpPath(a, b) == Less && CmpPath(b, c) == Less
      ensures CmpPath(a, c) == Less
    {
      LexTrans(a, b, c, CmpComponent);
    }
  }

  /** A name with no slash that is neither empty, `.` nor `..` is one more file name after a non-empty base. */
  lemma JoinPlainName(base: Path, raw: OsStr)
    requires raw != [] && raw != [DOT] && raw != [DOT, DOT] && SLASH !in raw
    ensures Join(base, raw) == base + [Normal(raw)]
  {
    assert TailComponents([raw]) == [Normal(raw)];
    assert SplitSlash(raw) == [raw];
  }

  /** Setting an extension on a path ending in a file name keeps everything before it and ends the name in `.ext`. */
  lemma SetExtensionEnds(p: Path, ext: OsStr)
    requires p != [] && p[|p| - 1].Normal? && ext != []
    ensures var (q, ok) := SetExtension(p, ext);
      && ok && |q| == |p| && q[..|p| - 1] == p[..|p| - 1]
      && q[|q| - 1].Normal?
      && var n := q[|q| - 1].name; |n| > |ext| && n[|n| - |ext| - 1..] == [DOT] + ext
    ensures SetExtension(p, ext).0[|p| - 1].name == Stem(FileName(p)) + [DOT] + ext
  {
  }
}
