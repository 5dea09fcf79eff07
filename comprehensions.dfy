/**
 * The comprehensions notebook: a list comprehension against the `append` loop
 * it abbreviates, selection with `if`, the vowel filter, two `for` clauses
 * against two nested comprehensions, and a dictionary comprehension.
 */
module Comprehensions {
  import opened Builtins

  /** `2 ** x`. */
  function Pow2(x: nat): (r: nat)
    ensures r >= 1
  {
    if x == 0 then 1 else 2 * Pow2(x - 1)
  }

  /** `[2 ** x for x in range(n)]`. */
  function Powers(n: nat): (r: seq<int>)
  {
    seq(n, x requires 0 <= x < n => Pow2(x))
  }

  /** `result = []; for x in range(n): result.append(2 ** x)`: the same list as
      the comprehension. */
  method PowersLoop(n: nat) returns (result: seq<int>)
    ensures result == Powers(n)
  {
    result := [];
    for x := 0 to n
      invariant result == Powers(x)
    {
      assert Powers(x + 1) == Powers(x) + [Pow2(x)];
      result := result + [Pow2(x)];
    }
  }

  /** `[2 ** x for x in range(10)]`. */
  lemma PowersOfTwo()
    ensures Powers(10) == [1, 2, 4, 8, 16, 32, 64, 128, 256, 512]
  {
    assert Pow2(9) == 512;
  }

  /** The number of decimal digits of the values the comprehensions meet. */
  lemma NatToStringLength(n: nat)
    ensures n < 10 ==> |NatToString(n)| == 1
    ensures 10 <= n < 100 ==> |NatToString(n)| == 2
    ensures 100 <= n < 1000 ==> |NatToString(n)| == 3
  {
    if n >= 10 {
      NatToStringLength(n / 10);
    }
  }

  /** `[len(str(2 ** x)) for x in range(n)]`. */
  function PowerLengths(n: nat): seq<int>
  {
    seq(n, x requires 0 <= x < n => |IntToString(Pow2(x))|)
  }

  /** `[len(str(2 ** x)) for x in range(10)]`: one digit up to 8, two up to 64,
      three up to 512. */
  lemma PowerLengthsOfTen()
    ensures PowerLengths(10) == [1, 1, 1, 1, 2, 2, 2, 3, 3, 3]
  {
    PowersOfTwo();
    var p := Powers(10);
    assert Pow2(0) == p[0] == 1 && Pow2(1) == p[1] == 2 && Pow2(2) == p[2] == 4 && Pow2(3) == p[3] == 8;
    assert Pow2(4) == p[4] == 16 && Pow2(5) == p[5] == 32 && Pow2(6) == p[6] == 64;
    assert Pow2(7) == p[7] == 128 && Pow2(8) == p[8] == 256 && Pow2(9) == p[9] == 512;
    NatToStringLength(1);
    NatToStringLength(2);
    NatToStringLength(4);
    NatToStringLength(8);
    NatToStringLength(16);
    NatToStringLength(32);
    NatToStringLength(64);
    NatToStringLength(128);
    NatToStringLength(256);
    NatToStringLength(512);
  }

  // ---------------------------------------------------------------------------
  // Selection

  /** `[x for x in xs if p(x)]`: the elements that pass, in their order. */
  function Filter<T>(p: T -> bool, xs: seq<T>): (r: seq<T>)
    ensures |r| <= |xs|
    ensures forall k :: 0 <= k < |r| ==> p(r[k]) && r[k] in xs
  {
    if xs == [] then []
    else Filter(p, xs[..|xs| - 1]) + (if p(xs[|xs| - 1]) then [xs[|xs| - 1]] else [])
  }

  /** Selection distributes over concatenation: it keeps the order of the
      elements that pass. */
  lemma {:induction false} FilterConcat<T>(p: T -> bool, a: seq<T>, b: seq<T>)
    ensures Filter(p, a + b) == Filter(p, a) + Filter(p, b)
  {
    if b != [] {
      var b', last := b[..|b| - 1], b[|b| - 1];
      assert (a + b)[..|a + b| - 1] == a + b' && (a + b)[|a + b| - 1] == last;
      FilterConcat(p, a, b');
      assert Filter(p, b) == Filter(p, b') + (if p(last) then [last] else []);
    } else {
      assert a + b == a;
    }
  }

  /** An element passes the selection exactly when it is kept. */
  lemma {:induction false} FilterKeeps<T>(p: T -> bool, xs: seq<T>, x: T)
    ensures x in Filter(p, xs) <==> x in xs && p(x)
  {
    if xs != [] {
      var init := xs[..|xs| - 1];
      FilterKeeps(p, init, x);
      assert xs == init + [xs[|xs| - 1]];
    }
  }

  /** `[x for x in range(n) if x % 3 == 0]`. */
  function Thirds(n: nat): seq<int>
  {
    Filter((x: int) => x % 3 == 0, Range(n))
  }

  /** The multiples of three below `n`, in order. */
  lemma {:induction false} ThirdsAre(n: nat)
    ensures Thirds(n) == seq((n + 2) / 3, k => 3 * k)
  {
    if n > 0 {
      ThirdsAre(n - 1);
      assert Range(n)[..n - 1] == Range(n - 1);
    }
  }

  /** `[2 ** x for x in range(n) if x % 3 == 0]`. */
  function FilteredPowers(n: nat): seq<int>
  {
    var t := Thirds(n);
    seq(|t|, k requires 0 <= k < |t| => Pow2(t[k]))
  }

  /** `2 ** x` for every third `x` below `n`, and nothing else. */
  lemma FilteredPowersAre(n: nat)
    ensures |FilteredPowers(n)| == (n + 2) / 3
    ensures forall k :: 0 <= k < |FilteredPowers(n)| ==> FilteredPowers(n)[k] == Pow2(3 * k)
  {
    ThirdsAre(n);
  }

  /** One more `x`: its power is appended when it passes the filter. */
  lemma FilteredPowersSnoc(x: nat)
    ensures FilteredPowers(x + 1) == FilteredPowers(x) + if x % 3 == 0 then [Pow2(x)] else []
  {
    assert Range(x + 1)[..x] == Range(x);
    var t, t' := Thirds(x), Thirds(x + 1);
    assert t' == t + if x % 3 == 0 then [x] else [];
    assert forall k :: 0 <= k < |t| ==> t'[k] == t[k];
  }

  /** The loop with a guarded `append`: the same list as the comprehension. */
  method FilteredPowersLoop(n: nat) returns (result: seq<int>)
    ensures result == FilteredPowers(n)
  {
    result := [];
    for x := 0 to n
      invariant result == FilteredPowers(x)
    {
      FilteredPowersSnoc(x);
      if x % 3 == 0 {
        result := result + [Pow2(x)];
      }
    }
  }

  /** `[2 ** x for x in range(30) if x % 3 == 0]`. */
  lemma FilteredPowersOfThirty()
    ensures FilteredPowers(30) == [1, 8, 64, 512, 4096, 32768, 262144, 2097152, 16777216, 134217728]
  {
    FilteredPowersAre(30);
    assert Pow2(9) == 512;
    assert Pow2(18) == 262144;
    assert Pow2(27) == 134217728;
  }

  /** `letter.lower() not in 'aeiou'`. */
  predicate Kept(c: char)
  {
    !IsVowel(c)
  }

  /** `"".join([letter for letter in s if letter.lower() not in 'aeiou'])`. */
  function Unvowelled(s: string): string
  {
    Filter(Kept, s)
  }

  /** The vowel filter keeps exactly the consonants and other characters, in
      their order, and drops one character per vowel. */
  lemma {:induction false} UnvowelledLength(s: string)
    ensures |Unvowelled(s)| == |s| - VowelCount(s)
  {
    if s != [] {
      UnvowelledLength(s[..|s| - 1]);
    }
  }

  /** No vowel survives, and a character survives exactly when it is not one. */
  lemma UnvowelledKeeps(s: string, c: char)
    ensures c in Unvowelled(s) <==> c in s && !IsVowel(c)
  {
    FilterKeeps(Kept, s, c);
  }

  /** Filtering twice changes nothing more. */
  lemma {:induction false} UnvowelledIdempotent(s: string)
    ensures Unvowelled(Unvowelled(s)) == Unvowelled(s)
  {
    if s != [] {
      var init := s[..|s| - 1];
      UnvowelledIdempotent(init);
      var c := s[|s| - 1];
      FilterConcat(Kept, Unvowelled(init), if Kept(c) then [c] else []);
    }
  }

  /** `"Eric Idle"` loses its four vowels. */
  lemma EricIdle()
    ensures Unvowelled("Eric Idle") == "rc dl"
  {
    EricIdleText();
    EricIdleChunks();
    FilterConcat(Kept, "Eri", "c I");
    FilterConcat(Kept, "Eri" + "c I", "dle");
  }

  lemma EricIdleText()
    ensures "Eric Idle" == "Eri" + "c I" + "dle" && "rc dl" == "r" + "c " + "dl"
  {
  }

  lemma EricIdleChunks()
    ensures Filter(Kept, "Eri") == "r" && Filter(Kept, "c I") == "c " && Filter(Kept, "dle") == "dl"
  {
    assert !Kept('E') && Kept('r') && !Kept('i') && Kept('c') && Kept(' ') && !Kept('I');
    assert Kept('d') && Kept('l') && !Kept('e');
    FilterThree(Kept, 'E', 'r', 'i');
    FilterThree(Kept, 'c', ' ', 'I');
    FilterThree(Kept, 'd', 'l', 'e');
  }

  /** Selection over three elements, written out. */
  lemma FilterThree<T>(p: T -> bool, a: T, b: T, c: T)
    ensures Filter(p, [a, b, c]) == (if p(a) then [a] else []) + (if p(b) then [b] else []) + (if p(c) then [c] else [])
  {
    assert [a, b, c][..2] == [a, b] && [a, b, c][2] == c;
    assert [a, b][..1] == [a] && [a, b][1] == b;
    assert [a][..0] == [] && [a][0] == a;
    assert Filter(p, [a]) == if p(a) then [a] else [];
  }

  // ---------------------------------------------------------------------------
  // Two `for` clauses, and nesting

  /** The pairs `for x in xs for y in ys` visits: `x` in the outer place. */
  function Pairs<A, B>(xs: seq<A>, ys: seq<B>): (r: seq<(A, B)>)
    ensures |r| == |xs| * |ys|
  {
    if xs == [] then []
    else seq(|ys|, j requires 0 <= j < |ys| => (xs[0], ys[j])) + Pairs(xs[1..], ys)
  }

  /** The pair at position `i * |ys| + j` is `(xs[i], ys[j])`: the order is
      x-major. */
  lemma {:induction false} PairsAt<A, B>(xs: seq<A>, ys: seq<B>, i: int, j: int)
    requires 0 <= i < |xs| && 0 <= j < |ys|
    ensures i * |ys| + j < |Pairs(xs, ys)|
    ensures Pairs(xs, ys)[i * |ys| + j] == (xs[i], ys[j])
  {
    if i > 0 {
      PairsAt(xs[1..], ys, i - 1, j);
      assert i * |ys| + j == |ys| + ((i - 1) * |ys| + j);
    }
  }

  /** `[x - y for x in range(n) for y in range(n)]`. */
  function Differences(n: nat): seq<int>
  {
    var ps := Pairs(Range(n), Range(n));
    seq(|ps|, k requires 0 <= k < |ps| => ps[k].0 - ps[k].1)
  }

  /** `[x - y for x in range(n) for y in range(n) if x >= y]`. */
  function SelectedDifferences(n: nat): seq<int>
  {
    var ps := Filter((p: (int, int)) => p.0 >= p.1, Pairs(Range(n), Range(n)));
    seq(|ps|, k requires 0 <= k < |ps| => ps[k].0 - ps[k].1)
  }

  /** `[[x - y for x in range(n)] for y in range(n)]`: one row per `y`. */
  function Matrix(n: nat): seq<seq<int>>
  {
    seq(n, y => seq(n, x => x - y))
  }

  /** The flat list has `n * n` entries, `x - y` at `x * n + y`; the nested list
      holds the same value in row `y`, column `x`, so the two orders are
      transposes of each other. */
  lemma DifferencesAt(n: nat, x: int, y: int)
    requires 0 <= x < n && 0 <= y < n
    ensures |Differences(n)| == n * n
    ensures x * n + y < |Differences(n)|
    ensures Differences(n)[x * n + y] == x - y == Matrix(n)[y][x]
  {
    PairsAt(Range(n), Range(n), x, y);
  }

  /** With `if x >= y` no entry is negative. */
  lemma SelectedDifferencesNonNegative(n: nat)
    ensures forall k :: 0 <= k < |SelectedDifferences(n)| ==> SelectedDifferences(n)[k] >= 0
  {
  }

  /** The notebook's sixteen entries, flat and nested. */
  lemma DifferencesOfFour()
    ensures Differences(4) == [0, -1, -2, -3, 1, 0, -1, -2, 2, 1, 0, -1, 3, 2, 1, 0]
    ensures Matrix(4) == [[0, 1, 2, 3], [-1, 0, 1, 2], [-2, -1, 0, 1], [-3, -2, -1, 0]]
  {
    var d := Differences(4);
    forall k | 0 <= k < 16
      ensures d[k] == k / 4 - k % 4
    {
      DifferencesAt(4, k / 4, k % 4);
    }
    var m := Matrix(4);
    assert m[0] == [0, 1, 2, 3] && m[1] == [-1, 0, 1, 2];
    assert m[2] == [-2, -1, 0, 1] && m[3] == [-3, -2, -1, 0];
  }

  /** `[x+y for x in ['a', 'b', 'c'] for y in ['1', '2', '3']]`. */
  function Concatenations(xs: seq<string>, ys: seq<string>): seq<string>
  {
    var ps := Pairs(xs, ys);
    seq(|ps|, k requires 0 <= k < |ps| => ps[k].0 + ps[k].1)
  }

  /** `[[x+y for x in ['a', 'b', 'c']] for y in ['1', '2', '3']]`. */
  function ConcatenationRows(xs: seq<string>, ys: seq<string>): seq<seq<string>>
  {
    seq(|ys|, j requires 0 <= j < |ys| => seq(|xs|, i requires 0 <= i < |xs| => xs[i] + ys[j]))
  }

  /** The flat form runs 'a1', 'a2', 'a3', 'b1', ...; the nested form's first
      row is 'a1', 'b1', 'c1'. */
  lemma LetterPairs()
    ensures Concatenations(["a", "b", "c"], ["1", "2", "3"])[..4] == ["a1", "a2", "a3", "b1"]
    ensures ConcatenationRows(["a", "b", "c"], ["1", "2", "3"])[0] == ["a1", "b1", "c1"]
  {
    var xs, ys := ["a", "b", "c"], ["1", "2", "3"];
    PairsAt(xs, ys, 0, 0);
    PairsAt(xs, ys, 0, 1);
    PairsAt(xs, ys, 0, 2);
    PairsAt(xs, ys, 1, 0);
    var c := Concatenations(xs, ys);
    assert c[0] == "a1" && c[1] == "a2" && c[2] == "a3" && c[3] == "b1";
    var rows := ConcatenationRows(xs, ys);
    assert rows[0][0] == "a1" && rows[0][1] == "b1" && rows[0][2] == "c1";
  }

  // ---------------------------------------------------------------------------
  // Dictionary comprehension

  /** The items of `{str(x) * 3: x for x in range(n)}`, in insertion order. */
  function TripledItems(n: nat): seq<(string, int)>
  {
    seq(n, x => (Repeat(IntToString(x), 3), x))
  }

  /** Tripling a string keeps it recoverable: equal triples come from equal
      strings. */
  lemma RepeatThreeInjective(a: string, b: string)
    requires Repeat(a, 3) == Repeat(b, 3)
    ensures a == b
  {
    assert Repeat(a, 3) == a + Repeat(a, 2);
    assert Repeat(b, 3) == b + Repeat(b, 2);
    assert |a| == |b|;
    assert a == Repeat(a, 3)[..|a|];
  }

  /** No key is produced twice, so each `x` is found under its own key. */
  lemma TripledLookup(n: nat, x: int)
    requires 0 <= x < n
    ensures DistinctKeys(TripledItems(n))
    ensures Repeat(IntToString(x), 3) in ToMap(TripledItems(n))
    ensures ToMap(TripledItems(n))[Repeat(IntToString(x), 3)] == x
  {
    var items := TripledItems(n);
    forall i, j | 0 <= i < j < |items|
      ensures items[i].0 != items[j].0
    {
      if items[i].0 == items[j].0 {
        RepeatThreeInjective(IntToString(i), IntToString(j));
        IntToStringInjective(i, j);
      }
    }
    ToMapAt(items, x);
  }

  /** `{str(x) * 3: x for x in range(3)}` is `{'000': 0, '111': 1, '222': 2}`. */
  lemma TripledOfThree()
    ensures ToMap(TripledItems(3)) == map["000" := 0, "111" := 1, "222" := 2]
  {
    TripledItemsOfThree();
    ToMap3(("000", 0), ("111", 1), ("222", 2));
  }

  lemma TripledItemsOfThree()
    ensures TripledItems(3) == [("000", 0), ("111", 1), ("222", 2)]
  {
    var items := TripledItems(3);
    assert IntToString(0) == "0" && IntToString(1) == "1" && IntToString(2) == "2";
    assert Repeat("0", 3) == "000" && Repeat("1", 3) == "111" && Repeat("2", 3) == "222";
    assert items[0] == ("000", 0) && items[1] == ("111", 1) && items[2] == ("222", 2);
  }

  /** Building a three-entry dictionary from its items. */
  lemma ToMap3<K, V>(a: (K, V), b: (K, V), c: (K, V))
    ensures ToMap([a, b, c]) == map[a.0 := a.1][b.0 := b.1][c.0 := c.1]
  {
    assert [a][..0] == [];
    assert ToMap([a]) == map[a.0 := a.1];
    assert [a, b][..1] == [a];
    assert ToMap([a, b]) == map[a.0 := a.1][b.0 := b.1];
    assert [a, b, c][..2] == [a, b];
  }
}
