/**
  Decimal text of machine integers: `Display for usize` (how the lines
  format prints positions) and `usize::from_str` (how `--after`, `--before`,
  `--context` and `--tab-width` are read). `usize` is taken to be 64 bits wide.
 */
module Decimal {
  import opened Wrappers

  /** One more than the largest `usize`. */
  const USIZE_LIMIT: int := 0x1_0000_0000_0000_0000

  predicate IsDigit(c: char)
  {
    '0' <= c <= '9'
  }

  predicate AllDigits(s: string)
  {
    forall i :: 0 <= i < |s| ==> IsDigit(s[i])
  }

  function DigitChar(d: nat): (c: char)
    requires d < 10
    ensures IsDigit(c)
  {
    ('0' as int + d) as char
  }

  /** The number a string of decimal digits denotes, most significant digit first. */
  function DigitsValue(s: string): nat
    requires AllDigits(s)
  {
    if s == [] then 0 else DigitsValue(s[..|s| - 1]) * 10 + (s[|s| - 1] as int - '0' as int)
  }

  /** `format!("{}", n)`: the shortest decimal text of `n`. */
  function ToDecimal(n: nat): (s: string)
    ensures s != [] && AllDigits(s)
    ensures |s| > 1 ==> s[0] != '0'
  {
    if n < 10 then [DigitChar(n)] else ToDecimal(n / 10) + [DigitChar(n % 10)]
  }

  /** The text after one optional leading `+`. */
  function Unsigned(s: string): (d: string)
    ensures if s != [] && s[0] == '+' then d == s[1..] else d == s
  {
    if |s| > 0 && s[0] == '+' then s[1..] else s
  }

  /**
    `s.parse::<usize>()`: an optional leading `+`, then one or more decimal
    digits whose value fits in a `usize`. The empty string, a lone `+`, a
    `-` sign, any other character and an overflowing value are errors.
   */
  function ParseUsize(s: string): (r: Option<nat>)
    ensures r.Some? ==> r.value < USIZE_LIMIT
    ensures r.Some? ==> s != [] && (AllDigits(s) || (s[0] == '+' && AllDigits(s[1..])))
    ensures var d := Unsigned(s);
      r.Some? <==> (d != [] && AllDigits(d) && DigitsValue(d) < USIZE_LIMIT)
    ensures r.Some? ==> r.value == DigitsValue(Unsigned(s))
  {
    var digits := Unsigned(s);
    if digits == [] || !AllDigits(digits) then None
    else if DigitsValue(digits) >= USIZE_LIMIT then None
    else Some(DigitsValue(digits))
  }

  /** `IntErrorKind`: why `usize::from_str` rejected a text. */
  datatype IntErrorKind = Empty | InvalidDigit | PosOverflow

  /** The `Debug` form of a `ParseIntError` of the given kind. */
  function ParseIntErrorDebug(kind: IntErrorKind): string
  {
    var name := match kind
      case Empty => "Empty"
      case InvalidDigit => "InvalidDigit"
      case PosOverflow => "PosOverflow";
    "ParseIntError { kind: " + name + " }"
  }

  function DigitValue(c: char): nat
    requires IsDigit(c)
  {
    c as int - '0' as int
  }

  /**
    The digit loop of `from_str_radix`, at position `i` with the value of the
    digits before it in `acc`: a character that is not a digit is an
    `InvalidDigit`, a digit that takes the value past `usize::MAX` is a
    `PosOverflow`, whichever is met first.
   */
  function ScanDigits(d: string, i: nat, acc: nat): (r: Result<nat, IntErrorKind>)
    requires i <= |d| && AllDigits(d[..i]) && acc == DigitsValue(d[..i]) && acc < USIZE_LIMIT
    ensures r.Ok? ==> r.value < USIZE_LIMIT
    ensures r.Err? ==> r.error != Empty
    decreases |d| - i
  {
    if i == |d| then Ok(acc)
    else if !IsDigit(d[i]) then Err(InvalidDigit)
    else
      var v := acc * 10 + DigitValue(d[i]);
      assert d[..i + 1][..i] == d[..i];
      if v >= USIZE_LIMIT then Err(PosOverflow) else ScanDigits(d, i + 1, v)
  }

  /**
    `usize::from_str` with the kind of its error: the empty text is `Empty`,
    a lone `+` is an `InvalidDigit`, and otherwise the digit loop runs over
    the text after an optional `+`.
   */
  function FromStr(s: string): Result<nat, IntErrorKind>
  {
    if s == [] then Err(Empty)
    else if s == "+" then Err(InvalidDigit)
    else ScanDigits(Unsigned(s), 0, 0)
  }

  /** A longer run of digits is worth at least as much as any of its prefixes. */
  lemma {:induction false} DigitsValuePrefix(d: string, j: nat)
    requires AllDigits(d) && j <= |d|
    ensures AllDigits(d[..j]) && DigitsValue(d[..j]) <= DigitsValue(d)
    decreases |d|
  {
    if j < |d| {
      var p := d[..|d| - 1];
      assert forall k :: 0 <= k < |p| ==> p[k] == d[k];
      DigitsValuePrefix(p, j);
      assert p[..j] == d[..j];
    } else {
      assert d[..j] == d;
    }
  }

  lemma {:induction false} ScanAgrees(d: string, i: nat, acc: nat)
    requires i <= |d| && AllDigits(d[..i]) && acc == DigitsValue(d[..i]) && acc < USIZE_LIMIT
    ensures ScanDigits(d, i, acc).Ok? <==> AllDigits(d) && DigitsValue(d) < USIZE_LIMIT
    ensures ScanDigits(d, i, acc).Ok? ==> ScanDigits(d, i, acc).value == DigitsValue(d)
    ensures AllDigits(d) ==> ScanDigits(d, i, acc) != Err(InvalidDigit)
    decreases |d| - i
  {
    if i == |d| {
      assert d[..i] == d;
    } else if IsDigit(d[i]) {
      var v := acc * 10 + DigitValue(d[i]);
      assert d[..i + 1][..i] == d[..i];
      if v >= USIZE_LIMIT {
        if AllDigits(d) {
          DigitsValuePrefix(d, i + 1);
        }
      } else {
        ScanAgrees(d, i + 1, v);
      }
    }
  }

  /** The two parsers accept the same texts and read the same numbers from them. */
  lemma FromStrAgrees(s: string)
    ensures FromStr(s).Ok? <==> ParseUsize(s).Some?
    ensures FromStr(s).Ok? ==> FromStr(s).value == ParseUsize(s).value
  {
    if s != [] && s != "+" {
      assert Unsigned(s)[..0] == [];
      ScanAgrees(Unsigned(s), 0, 0);
    }
  }

  /** Digits alone that overflow are a `PosOverflow`. */
  lemma FromStrOverflow(s: string)
    requires Unsigned(s) != [] && AllDigits(Unsigned(s)) && DigitsValue(Unsigned(s)) >= USIZE_LIMIT
    ensures FromStr(s) == Err(PosOverflow)
  {
    assert Unsigned(s)[..0] == [];
    ScanAgrees(Unsigned(s), 0, 0);
  }

  /** A character that is not a digit, met before the digits overflow, is an `InvalidDigit`. */
  lemma FromStrInvalidDigit(s: string, k: nat)
    requires k < |Unsigned(s)| && !IsDigit(Unsigned(s)[k])
    requires AllDigits(Unsigned(s)[..k]) && DigitsValue(Unsigned(s)[..k]) < USIZE_LIMIT
    ensures FromStr(s) == Err(InvalidDigit)
  {
    var d := Unsigned(s);
    assert d[..0] == [];
    ScanStopsAt(d, 0, 0, k);
  }

  lemma {:induction false} ScanStopsAt(d: string, i: nat, acc: nat, k: nat)
    requires i <= k < |d| && !IsDigit(d[k])
    requires AllDigits(d[..k]) && DigitsValue(d[..k]) < USIZE_LIMIT
    requires AllDigits(d[..i]) && acc == DigitsValue(d[..i]) && acc < USIZE_LIMIT
    ensures ScanDigits(d, i, acc) == Err(InvalidDigit)
    decreases k - i
  {
    if i < k {
      assert d[..k][i] == d[i];
      var v := acc * 10 + DigitValue(d[i]);
      assert d[..i + 1][..i] == d[..i];
      DigitsValuePrefix(d[..k], i + 1);
      assert d[..k][..i + 1] == d[..i + 1];
      ScanStopsAt(d, i + 1, v, k);
    }
  }

  lemma {:induction false} DecimalValue(n: nat)
    ensures DigitsValue(ToDecimal(n)) == n
  {
    if n >= 10 {
      DecimalValue(n / 10);
      var s := ToDecimal(n);
      assert s[..|s| - 1] == ToDecimal(n / 10);
    }
  }

  /** Printing a `usize` and parsing the text back gives the number again. */
  lemma ParseToDecimal(n: nat)
    requires n < USIZE_LIMIT
    ensures ParseUsize(ToDecimal(n)) == Some(n)
  {
    DecimalValue(n);
  }

  /** Distinct numbers print differently. */
  lemma ToDecimalInjective(m: nat, n: nat)
    requires ToDecimal(m) == ToDecimal(n)
    ensures m == n
  {
    DecimalValue(m);
    DecimalValue(n);
  }
}
