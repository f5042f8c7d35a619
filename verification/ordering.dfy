/**
  Three-way comparison as Rust's `Ord::cmp` gives it, the lexicographic order
  that `#[derive(Ord)]`, `Vec`, `String` and `Path` use, and sorting.
 */
module Ordering {

  datatype Cmp = Less | Equal | Greater

  function Flip(c: Cmp): Cmp
  {
    match c
    case Less => Greater
    case Equal => Equal
    case Greater => Less
  }

  /** `Ordering::then`: the second comparison decides only a tie of the first. */
  function Then(first: Cmp, second: Cmp): Cmp
  {
    if first == Equal then second else first
  }

  /** A comparison that is a total order whose ties are exactly equal values (a derived `Ord` with a derived `Eq`). */
  ghost predicate TotalOrder<T(!new)>(cmp: (T, T) -> Cmp)
  {
    && (forall x, y :: cmp(x, y) == Equal <==> x == y)
    && (forall x, y :: cmp(y, x) == Flip(cmp(x, y)))
    && (forall x, y, z :: cmp(x, y) == Less && cmp(y, z) == Less ==> cmp(x, z) == Less)
  }

  /** The derived order on integers. */
  function CmpInt(a: int, b: int): Cmp
  {
    if a < b then Less else if a == b then Equal else Greater
  }

  function CmpChar(a: char, b: char): Cmp
  {
    CmpInt(a as int, b as int)
  }

  /** Lexicographic order on sequences: the first difference decides, and a proper prefix comes first. */
  function Lex<T>(a: seq<T>, b: seq<T>, cmp: (T, T) -> Cmp): Cmp
    decreases |a|
  {
    if a == [] then (if b == [] then Equal else Less)
    else if b == [] then Greater
    else Then(cmp(a[0], b[0]), Lex(a[1..], b[1..], cmp))
  }

  /** `str`/`String` order: byte order of UTF-8, which is the order of code points. */
  function CmpString(a: string, b: string): Cmp
  {
    Lex(a, b, CmpChar)
  }

  lemma CmpIntTotal()
    ensures TotalOrder(CmpInt)
  {
  }

  lemma CmpCharTotal()
    ensures TotalOrder(CmpChar)
  {
    assert forall x: char, y: char :: CmpChar(x, y) == Equal ==> x as int == y as int;
  }

  lemma {:induction false} LexEqual<T(!new)>(a: seq<T>, b: seq<T>, cmp: (T, T) -> Cmp)
    requires TotalOrder(cmp)
    ensures Lex(a, b, cmp) == Equal <==> a == b
    decreases |a|
  {
    if a != [] && b != [] {
      LexEqual(a[1..], b[1..], cmp);
      if a[1..] == b[1..] && a[0] == b[0] {
        assert a == [a[0]] + a[1..] && b == [b[0]] + b[1..];
      }
    }
  }

  lemma {:induction false} LexFlip<T(!new)>(a: seq<T>, b: seq<T>, cmp: (T, T) -> Cmp)
    requires TotalOrder(cmp)
    ensures Lex(b, a, cmp) == Flip(Lex(a, b, cmp))
    decreases |a|
  {
    if a != [] && b != [] {
      LexFlip(a[1..], b[1..], cmp);
    }
  }

  lemma {:induction false} LexTrans<T(!new)>(a: seq<T>, b: seq<T>, c: seq<T>, cmp: (T, T) -> Cmp)
    requires TotalOrder(cmp)
    requires Lex(a, b, cmp) == Less && Lex(b, c, cmp) == Less
    ensures Lex(a, c, cmp) == Less
    decreases |a|
  {
    if a != [] && c != [] {
      assert b != [];
      var h1, h2 := cmp(a[0], b[0]), cmp(b[0], c[0]);
      if h1 == Equal && h2 == Equal {
        LexTrans(a[1..], b[1..], c[1..], cmp);
      }
    }
  }

  /** Lexicographic order over a total order is a total order. */
  lemma LexTotal<T(!new)>(cmp: (T, T) -> Cmp)
    requires TotalOrder(cmp)
    ensures TotalOrder((a: seq<T>, b: seq<T>) => Lex(a, b, cmp))
  {
    forall a: seq<T>, b: seq<T> ensures Lex(a, b, cmp) == Equal <==> a == b {
      LexEqual(a, b, cmp);
    }
    forall a: seq<T>, b: seq<T> ensures Lex(b, a, cmp) == Flip(Lex(a, b, cmp)) {
      LexFlip(a, b, cmp);
    }
    forall a: seq<T>, b: seq<T>, c: seq<T> | Lex(a, b, cmp) == Less && Lex(b, c, cmp) == Less
      ensures Lex(a, c, cmp) == Less
    {
      LexTrans(a, b, c, cmp);
    }
  }

  lemma CmpStringTotal()
    ensures TotalOrder(CmpString)
  {
    CmpCharTotal();
    forall a: string, b: string ensures CmpString(a, b) == Equal <==> a == b {
      LexEqual(a, b, CmpChar);
    }
    forall a: string, b: string ensures CmpString(b, a) == Flip(CmpString(a, b)) {
      LexFlip(a, b, CmpChar);
    }
    forall a: string, b: string, c: string | CmpString(a, b) == Less && CmpString(b, c) == Less
      ensures CmpString(a, c) == Less
    {
      LexTrans(a, b, c, CmpChar);
    }
  }

  /** `a <= b` under `cmp`. */
  predicate AtMost<T>(cmp: (T, T) -> Cmp, a: T, b: T)
  {
    cmp(a, b) != Greater
  }

  lemma AtMostTrans<T(!new)>(cmp: (T, T) -> Cmp, a: T, b: T, c: T)
    requires TotalOrder(cmp)
    requires AtMost(cmp, a, b) && AtMost(cmp, b, c)
    ensures AtMost(cmp, a, c)
  {
    if cmp(a, b) == Equal {
      assert a == b;
    } else if cmp(b, c) == Equal {
      assert b == c;
    }
  }

  ghost predicate Sorted<T>(cmp: (T, T) -> Cmp, s: seq<T>)
  {
    forall i, j :: 0 <= i < j < |s| ==> AtMost(cmp, s[i], s[j])
  }

  /** Insert `x` before the first element it does not exceed. */
  function Insert<T>(cmp: (T, T) -> Cmp, x: T, s: seq<T>): seq<T>
  {
    if s == [] then [x]
    else if AtMost(cmp, x, s[0]) then [x] + s
    else [s[0]] + Insert(cmp, x, s[1..])
  }

  /** A stable sort: each element goes in front of the sorted rest, ahead of its equals. */
  function InsertionSort<T>(cmp: (T, T) -> Cmp, s: seq<T>): seq<T>
  {
    if s == [] then [] else Insert(cmp, s[0], InsertionSort(cmp, s[1..]))
  }

  lemma {:induction false} InsertPermutes<T>(cmp: (T, T) -> Cmp, x: T, s: seq<T>)
    ensures multiset(Insert(cmp, x, s)) == multiset(s) + multiset{x}
  {
    if s != [] && !AtMost(cmp, x, s[0]) {
      InsertPermutes(cmp, x, s[1..]);
      assert s == [s[0]] + s[1..];
    }
  }

  lemma {:induction false} InsertSorted<T(!new)>(cmp: (T, T) -> Cmp, x: T, s: seq<T>)
    requires TotalOrder(cmp) && Sorted(cmp, s)
    ensures Sorted(cmp, Insert(cmp, x, s))
  {
    var r := Insert(cmp, x, s);
    if s == [] {
    } else if AtMost(cmp, x, s[0]) {
      forall j | 1 <= j < |r| ensures AtMost(cmp, r[0], r[j]) {
        if j > 1 { AtMostTrans(cmp, x, s[0], s[j - 1]); }
      }
    } else {
      InsertSorted(cmp, x, s[1..]);
      InsertPermutes(cmp, x, s[1..]);
      assert cmp(s[0], x) == Less;
      forall j | 1 <= j < |r| ensures AtMost(cmp, s[0], r[j]) {
        var tail := Insert(cmp, x, s[1..]);
        assert r[j] == tail[j - 1];
        assert r[j] in multiset(s[1..]) + multiset{x} by {
          assert tail[j - 1] in multiset(tail);
        }
        if r[j] != x {
          assert r[j] in s[1..];
          var k :| 0 <= k < |s[1..]| && s[1..][k] == r[j];
          assert s[k + 1] == r[j];
        }
      }
    }
  }

  lemma {:induction false} InsertionSortCorrect<T(!new)>(cmp: (T, T) -> Cmp, s: seq<T>)
    requires TotalOrder(cmp)
    ensures Sorted(cmp, InsertionSort(cmp, s))
    ensures multiset(InsertionSort(cmp, s)) == multiset(s)
  {
    if s != [] {
      InsertionSortCorrect(cmp, s[1..]);
      InsertSorted(cmp, s[0], InsertionSort(cmp, s[1..]));
      InsertPermutes(cmp, s[0], InsertionSort(cmp, s[1..]));
      assert s == [s[0]] + s[1..];
    }
  }

  lemma MultisetTails<T>(a: seq<T>, b: seq<T>)
    requires a != [] && b != [] && a[0] == b[0]
    requires multiset(a) == multiset(b)
    ensures multiset(a[1..]) == multiset(b[1..])
  {
    assert a == [a[0]] + a[1..] && b == [b[0]] + b[1..];
    assert multiset(a) == multiset([a[0]]) + multiset(a[1..]);
    assert multiset(b) == multiset([b[0]]) + multiset(b[1..]);
    forall x ensures multiset(a[1..])[x] == multiset(b[1..])[x] {
      assert multiset(a)[x] == multiset([a[0]])[x] + multiset(a[1..])[x];
      assert multiset(b)[x] == multiset([b[0]])[x] + multiset(b[1..])[x];
    }
  }

  /** Two sorted permutations of each other start with the same, least, element. */
  lemma SortedHeads<T(!new)>(cmp: (T, T) -> Cmp, a: seq<T>, b: seq<T>)
    requires TotalOrder(cmp)
    requires Sorted(cmp, a) && Sorted(cmp, b)
    requires multiset(a) == multiset(b) && a != []
    ensures b != [] && a[0] == b[0]
  {
    assert b != [] by { assert |b| == |multiset(b)| == |multiset(a)| == |a|; }
    assert a[0] in multiset(b) && b[0] in multiset(a) by {
      assert a[0] in multiset(a) && b[0] in multiset(b);
    }
    var i :| 0 <= i < |b| && b[i] == a[0];
    var j :| 0 <= j < |a| && a[j] == b[0];
    assert AtMost(cmp, b[0], a[0]) by { if i > 0 { assert AtMost(cmp, b[0], b[i]); } }
    assert AtMost(cmp, a[0], b[0]) by { if j > 0 { assert AtMost(cmp, a[0], a[j]); } }
    assert cmp(b[0], a[0]) == Flip(cmp(a[0], b[0]));
  }

  /**
    Under a total order whose ties are equal values there is exactly one
    sorted permutation of a sequence: every correct sort, stable or not,
    returns the same result.
   */
  lemma {:induction false} SortedPermutationUnique<T(!new)>(cmp: (T, T) -> Cmp, a: seq<T>, b: seq<T>)
    requires TotalOrder(cmp)
    requires Sorted(cmp, a) && Sorted(cmp, b)
    requires multiset(a) == multiset(b)
    ensures a == b
  {
    if a == [] {
      assert |b| == |multiset(b)| == 0;
    } else {
      SortedHeads(cmp, a, b);
      MultisetTails(a, b);
      SortedPermutationUnique(cmp, a[1..], b[1..]);
      assert a == [a[0]] + a[1..] && b == [b[0]] + b[1..];
    }
  }

  /**
    Halfway through inserting the element now at `j` into the sorted `s[..i]`:
    `s[..i + 1]` is sorted apart from position `j`, and that element is at
    most everything after it.
   */
  ghost predicate Inserting<T>(cmp: (T, T) -> Cmp, s: seq<T>, i: nat, j: nat)
  {
    && j <= i < |s|
    && (forall k, l :: 0 <= k < l <= i && k != j && l != j ==> AtMost(cmp, s[k], s[l]))
    && (forall l :: j < l <= i ==> AtMost(cmp, s[j], s[l]))
  }

  /** Exchanging two neighbours keeps the elements. */
  lemma SwapPermutes<T>(s: seq<T>, j: nat)
    requires 0 < j < |s|
    ensures multiset(s[j - 1 := s[j]][j := s[j - 1]]) == multiset(s)
  {
    var t := s[j - 1 := s[j]][j := s[j - 1]];
    assert s == s[..j - 1] + [s[j - 1], s[j]] + s[j + 1..];
    assert t == s[..j - 1] + [s[j], s[j - 1]] + s[j + 1..];
  }

  /** Moving the element being inserted one place left, past a greater one. */
  lemma SwapStep<T(!new)>(cmp: (T, T) -> Cmp, s: seq<T>, i: nat, j: nat)
    requires TotalOrder(cmp)
    requires Inserting(cmp, s, i, j) && 0 < j && cmp(s[j - 1], s[j]) == Greater
    ensures Inserting(cmp, s[j - 1 := s[j]][j := s[j - 1]], i, j - 1)
  {
    var t := s[j - 1 := s[j]][j := s[j - 1]];
    assert cmp(s[j], s[j - 1]) == Less;
    forall l | j - 1 < l <= i ensures AtMost(cmp, t[j - 1], t[l]) {
      if l > j {
        AtMostTrans(cmp, s[j], s[j - 1], s[l]) by {
          assert AtMost(cmp, s[j], s[j - 1]);
          assert AtMost(cmp, s[j - 1], s[l]) || l == j;
        }
      }
    }
  }

  /** The element has reached its place: the prefix is sorted. */
  lemma InsertDone<T(!new)>(cmp: (T, T) -> Cmp, s: seq<T>, i: nat, j: nat)
    requires TotalOrder(cmp)
    requires Inserting(cmp, s, i, j) && (j == 0 || cmp(s[j - 1], s[j]) != Greater)
    ensures Sorted(cmp, s[..i + 1])
  {
    forall k, l | 0 <= k < l < i + 1 ensures AtMost(cmp, s[k], s[l]) {
      if l == j && k < j - 1 {
        AtMostTrans(cmp, s[k], s[j - 1], s[j]);
      }
    }
  }

  /** `slice::sort` on a slice of values with a total order: in place, by swapping neighbours. */
  method SortInPlace<T(!new)>(cmp: (T, T) -> Cmp, a: array<T>)
    requires TotalOrder(cmp)
    modifies a
    ensures Sorted(cmp, a[..])
    ensures multiset(a[..]) == multiset(old(a[..]))
  {
    for i := 0 to a.Length
      invariant Sorted(cmp, a[..i])
      invariant multiset(a[..]) == multiset(old(a[..]))
    {
      var j := i;
      assert Inserting(cmp, a[..], i, j) by {
        forall k, l | 0 <= k < l <= i && l != i ensures AtMost(cmp, a[k], a[l]) {
          assert a[..i][k] == a[k] && a[..i][l] == a[l];
        }
      }
      while j > 0 && cmp(a[j - 1], a[j]) == Greater
        invariant multiset(a[..]) == multiset(old(a[..]))
        invariant Inserting(cmp, a[..], i, j)
      {
        SwapStep(cmp, a[..], i, j);
        SwapPermutes(a[..], j);
        a[j - 1], a[j] := a[j], a[j - 1];
        j := j - 1;
      }
      InsertDone(cmp, a[..], i, j);
    }
    assert a[..a.Length] == a[..];
  }
}
