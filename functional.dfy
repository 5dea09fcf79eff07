/**
 * The functional-programming notebook: functions that return functions
 * (`generate_adder`), `map` against a comprehension, and the accumulate/reduce
 * family (`accumulate`, `summer`, `my_sum`, `bigger`, the `my_max` variants)
 * with the split-and-combine property of associative operations.
 *
 * `my_max` mixes the integers it is given with a float starting value
 * (`sys.float_info.min`); the max family is modelled over `real`, comparing the
 * numbers exactly as Python compares an int with a float.
 */
module Functional {
  import opened Builtins

  // ---------------------------------------------------------------------------
  // Functions that return functions

  /** `add(a, b)`, and the local `_add` that `my_sum` folds with. */
  function Add(a: int, b: int): int
  {
    a + b
  }

  /** `generate_adder(increment)`: the returned closure adds `increment`. */
  function GenerateAdder(increment: int): (adder: int -> int)
    ensures forall a :: adder(a) == Add(a, increment)
  {
    a => a + increment
  }

  /** `add = generate_adder`; `add(a)(b)` is the one-argument form of `add(b, a)`,
      and with `add_five`, `add_3` and `add(8)(5)` as the notebook calls them. */
  lemma CurriedAdd(a: int, b: int)
    ensures GenerateAdder(a)(b) == Add(a, b)
    ensures GenerateAdder(3)(9) == 12
    ensures GenerateAdder(8)(5) == 13
    ensures GenerateAdder(5)(6) == 11
  {
  }

  // ---------------------------------------------------------------------------
  // map versus the list comprehension

  /** `list(map(f, xs))`: `f` applied to each element in turn. */
  function Map<A, B>(f: A -> B, xs: seq<A>): seq<B>
  {
    if xs == [] then [] else [f(xs[0])] + Map(f, xs[1..])
  }

  /** `list(map(f, xs)) == [f(x) for x in xs]`. */
  lemma {:induction false} MapIsComprehension<A, B>(f: A -> B, xs: seq<A>)
    ensures Map(f, xs) == seq(|xs|, i requires 0 <= i < |xs| => f(xs[i]))
  {
    if xs != [] {
      MapIsComprehension(f, xs[1..]);
    }
  }

  /** `list(map(add_five, range(10)))` and `list(map(lambda x: 2*x, range(10)))`
      give the same lists as their comprehensions. */
  lemma MapExamples()
    ensures Map(GenerateAdder(5), Range(10)) == seq(10, i => i + 5)
    ensures Map((x: int) => 2 * x, Range(10)) == seq(10, i => 2 * i)
  {
    MapIsComprehension(GenerateAdder(5), Range(10));
    MapIsComprehension((x: int) => 2 * x, Range(10));
  }

  // ---------------------------------------------------------------------------
  // Accumulation

  /** What `accumulate(initial, operation, data)` computes: `operation` folded
      over `data` from the left, starting at `initial`. */
  function Fold<A, B>(initial: A, operation: (A, B) -> A, data: seq<B>): A
  {
    if data == [] then initial
    else operation(Fold(initial, operation, data[..|data| - 1]), data[|data| - 1])
  }

  /** `accumulate`: the loop that updates `accumulator` once per element. */
  method Accumulate<A, B>(initial: A, operation: (A, B) -> A, data: seq<B>) returns (accumulator: A)
    ensures accumulator == Fold(initial, operation, data)
  {
    accumulator := initial;
    for i := 0 to |data|
      invariant accumulator == Fold(initial, operation, data[..i])
    {
      assert data[..i + 1][..i] == data[..i];
      accumulator := operation(accumulator, data[i]);
    }
    assert data[..|data|] == data;
  }

  /** One more element is one more step of the operation, after all earlier ones. */
  lemma FoldEmptyAndStep<A, B>(initial: A, operation: (A, B) -> A, xs: seq<B>, x: B)
    ensures Fold(initial, operation, []) == initial
    ensures Fold(initial, operation, xs + [x]) == operation(Fold(initial, operation, xs), x)
  {
    assert (xs + [x])[..|xs|] == xs;
  }

  /** A fold over five elements, step by step. */
  lemma FoldSteps<A, B>(initial: A, operation: (A, B) -> A, d: seq<B>)
    requires |d| == 5
    ensures Fold(initial, operation, d) ==
      operation(operation(operation(operation(operation(initial, d[0]), d[1]), d[2]), d[3]), d[4])
  {
    assert d[..1][..0] == [];
    assert Fold(initial, operation, d[..1][..0]) == initial;
    var f1 := Fold(initial, operation, d[..1]);
    assert f1 == operation(initial, d[0]);
    assert d[..2][..1] == d[..1];
    var f2 := Fold(initial, operation, d[..2]);
    assert f2 == operation(f1, d[1]);
    assert d[..3][..2] == d[..2];
    var f3 := Fold(initial, operation, d[..3]);
    assert f3 == operation(f2, d[2]);
    assert d[..4][..3] == d[..3];
    var f4 := Fold(initial, operation, d[..4]);
    assert f4 == operation(f3, d[3]);
    assert d[..4] == d[..|d| - 1];
  }

  /** Folding a concatenation folds the second part from where the first ended. */
  lemma {:induction false} FoldConcat<A, B>(initial: A, operation: (A, B) -> A, xs: seq<B>, ys: seq<B>)
    ensures Fold(initial, operation, xs + ys) == Fold(Fold(initial, operation, xs), operation, ys)
  {
    if ys == [] {
      assert xs + ys == xs;
    } else {
      var init := ys[..|ys| - 1];
      FoldConcat(initial, operation, xs, init);
      assert (xs + ys)[..|xs + ys| - 1] == xs + init;
    }
  }

  ghost predicate Associative<A(!new)>(operation: (A, A) -> A)
  {
    forall a, b, c :: operation(operation(a, b), c) == operation(a, operation(b, c))
  }

  ghost predicate RightIdentity<A(!new)>(e: A, operation: (A, A) -> A)
  {
    forall a :: operation(a, e) == a
  }

  /** Split and combine: for an associative operation whose starting value is
      an identity, the two halves can be folded separately and combined. */
  lemma {:induction false} FoldSplit<A(!new)>(e: A, operation: (A, A) -> A, xs: seq<A>, ys: seq<A>)
    requires Associative(operation)
    requires RightIdentity(e, operation)
    ensures Fold(e, operation, xs + ys) == operation(Fold(e, operation, xs), Fold(e, operation, ys))
  {
    if ys == [] {
      assert xs + ys == xs;
    } else {
      var init := ys[..|ys| - 1];
      var y := ys[|ys| - 1];
      FoldSplit(e, operation, xs, init);
      assert (xs + ys)[..|xs + ys| - 1] == xs + init;
      assert Fold(e, operation, xs + ys) == operation(Fold(e, operation, xs + init), y);
    }
  }

  // ---------------------------------------------------------------------------
  // Sums

  /** `summer`: the explicit loop with a running `total`. */
  method Summer(data: seq<int>) returns (total: int)
    ensures total == Sum(data)
  {
    total := 0;
    for i := 0 to |data|
      invariant total == Sum(data[..i])
    {
      assert data[..i + 1][..i] == data[..i];
      total := total + data[i];
    }
    assert data[..|data|] == data;
  }

  /** `my_sum`: `accumulate(0, _add, data)`. */
  function MySum(data: seq<int>): int
  {
    Fold(0, Add, data)
  }

  /** `my_sum` and `summer` compute the arithmetic sum. */
  lemma {:induction false} MySumIsSum(data: seq<int>)
    ensures MySum(data) == Sum(data)
  {
    if data != [] {
      MySumIsSum(data[..|data| - 1]);
    }
  }

  /** `my_sum(range(5)) == 10`. */
  lemma MySumOfRange5()
    ensures MySum(Range(5)) == 10
  {
    assert Range(5) == [0, 1, 2, 3, 4];
    FoldSteps(0, Add, [0, 1, 2, 3, 4]);
  }

  /** Split and combine for `_add`. */
  lemma MySumSplit(xs: seq<int>, ys: seq<int>)
    ensures MySum(xs + ys) == MySum(xs) + MySum(ys)
  {
    assert Associative(Add);
    assert RightIdentity(0, Add);
    FoldSplit(0, Add, xs, ys);
  }

  // ---------------------------------------------------------------------------
  // Maxima

  /** `bigger(a, b)`: `b` only when it is strictly larger, so a tie keeps `a`. */
  function Bigger(a: real, b: real): (r: real)
    ensures r >= a && r >= b
    ensures r == a || r == b
    ensures b <= a ==> r == a
  {
    if b > a then b else a
  }

  /** The lambda of the last `my_max`: `a if a > b else b`. */
  function BiggerLambda(a: real, b: real): real
  {
    if a > b then a else b
  }

  /** The first `my_max`: a loop that replaces `highest` by any larger element. */
  method MyMaxLoop(initial: real, data: seq<real>) returns (highest: real)
    ensures highest == MyMax(initial, data)
    ensures highest >= initial
    ensures forall i :: 0 <= i < |data| ==> data[i] <= highest
    ensures highest == initial || highest in data
  {
    highest := initial;
    for i := 0 to |data|
      invariant highest == MyMax(initial, data[..i])
    {
      assert data[..i + 1][..i] == data[..i];
      if data[i] > highest {
        highest := data[i];
      }
    }
    assert data[..|data|] == data;
    MyMaxBounds(initial, data);
  }

  /** The second and third `my_max`: `accumulate` and `reduce` with `bigger`,
      each starting from `initial` (`sys.float_info.min` in the notebook). */
  function MyMax(initial: real, data: seq<real>): real
  {
    Fold(initial, Bigger, data)
  }

  /** Every `my_max` ends at least as large as its start and as every element,
      and it is the start or one of the elements. */
  lemma {:induction false} MyMaxBounds(initial: real, data: seq<real>)
    ensures MyMax(initial, data) >= initial
    ensures forall i :: 0 <= i < |data| ==> data[i] <= MyMax(initial, data)
    ensures MyMax(initial, data) == initial || MyMax(initial, data) in data
  {
    if data != [] {
      var init := data[..|data| - 1];
      MyMaxBounds(initial, init);
      assert forall i :: 0 <= i < |init| ==> data[i] == init[i];
      assert MyMax(initial, init) in init ==> MyMax(initial, init) in data;
    }
  }

  /** The last `my_max`, with the lambda, agrees with the one using `bigger`. */
  lemma {:induction false} MyMaxLambdaAgrees(initial: real, data: seq<real>)
    ensures Fold(initial, BiggerLambda, data) == MyMax(initial, data)
  {
    if data != [] {
      MyMaxLambdaAgrees(initial, data[..|data| - 1]);
    }
  }

  /** `my_max([2, 5, 10, -11, -5]) == 10` from any start up to 10. */
  lemma MyMaxExample(initial: real)
    requires initial <= 10.0
    ensures MyMax(initial, [2.0, 5.0, 10.0, -11.0, -5.0]) == 10.0
  {
    FoldSteps(initial, Bigger, [2.0, 5.0, 10.0, -11.0, -5.0]);
  }

  /** A fold of `bigger` from a value no larger than `initial` is the larger of
      that value and the fold from `initial`. */
  lemma {:induction false} MyMaxFrom(m: real, initial: real, ys: seq<real>)
    requires m >= initial
    ensures MyMax(m, ys) == Bigger(m, MyMax(initial, ys))
  {
    if ys != [] {
      MyMaxFrom(m, initial, ys[..|ys| - 1]);
    }
  }

  /** Split and combine for `bigger`: the maximum of a concatenation is `bigger`
      of the two halves' maxima. */
  lemma MyMaxSplit(initial: real, xs: seq<real>, ys: seq<real>)
    ensures MyMax(initial, xs + ys) == Bigger(MyMax(initial, xs), MyMax(initial, ys))
  {
    FoldConcat(initial, Bigger, xs, ys);
    MyMaxBounds(initial, xs);
    MyMaxFrom(MyMax(initial, xs), initial, ys);
  }

  /** `sys.float_info.min`, the start every `my_max` uses: the smallest positive
      normalised double, not the most negative number. */
  const FloatInfoMin: real := 2.2250738585072014e-308

  /** As written, `my_max` of a list whose elements are all negative returns its
      starting value, which is none of the elements: `my_max([-11, -5])` is
      `sys.float_info.min` rather than -5. */
  lemma MyMaxAllNegative()
    ensures MyMax(FloatInfoMin, [-11.0, -5.0]) == FloatInfoMin
    ensures MyMax(FloatInfoMin, [-11.0, -5.0]) !in [-11.0, -5.0]
  {
    assert [-11.0, -5.0][..1] == [-11.0] && [-11.0][..0] == [];
  }

  /** The maximum the start value was meant to give ("start with the smallest
      possible number"): the fold of `bigger` from the first element, `None`
      for an empty list. */
  function MyMaxFromFirst(data: seq<real>): (r: Option<real>)
    ensures r.None? <==> data == []
    ensures r.Some? ==> r.value in data
    ensures r.Some? ==> forall i :: 0 <= i < |data| ==> data[i] <= r.value
  {
    if data == [] then None
    else
      MyMaxBounds(data[0], data[1..]);
      assert forall i :: 1 <= i < |data| ==> data[i] == data[1..][i - 1];
      Some(MyMax(data[0], data[1..]))
  }

  // ---------------------------------------------------------------------------
  // Lambdas over DNA sequences

  /** `most_of_given_base_in_any_sequence(sequences, base)`: the largest count of
      `base` in any of the sequences; `None` where `max` of nothing raises
      ValueError. */
  function MostOfGivenBase(sequences: seq<string>, base: char): (r: Option<int>)
    ensures r.None? <==> sequences == []
    ensures r.Some? ==> forall i :: 0 <= i < |sequences| ==> Count(sequences[i], base) <= r.value
    ensures r.Some? ==> exists i :: 0 <= i < |sequences| && Count(sequences[i], base) == r.value
  {
    var counts := Map((s: string) => Count(s, base) as int, sequences);
    MapIsComprehension((s: string) => Count(s, base) as int, sequences);
    assert forall i :: 0 <= i < |sequences| ==> counts[i] == Count(sequences[i], base);
    Max(counts)
  }

  /** `most_Cs_in_any_sequence` and `most_Gs_in_any_sequence`. */
  function MostCs(sequences: seq<string>): (r: Option<int>)
    ensures r.None? <==> sequences == []
    ensures r.Some? ==> forall i :: 0 <= i < |sequences| ==> Count(sequences[i], 'C') <= r.value
    ensures r.Some? ==> exists i :: 0 <= i < |sequences| && Count(sequences[i], 'C') == r.value
  {
    MostOfGivenBase(sequences, 'C')
  }

  function MostGs(sequences: seq<string>): (r: Option<int>)
    ensures r.None? <==> sequences == []
    ensures r.Some? ==> forall i :: 0 <= i < |sequences| ==> Count(sequences[i], 'G') <= r.value
    ensures r.Some? ==> exists i :: 0 <= i < |sequences| && Count(sequences[i], 'G') == r.value
  {
    MostOfGivenBase(sequences, 'G')
  }

  const Data: seq<string> := ["CGTA", "CGGGTAAACG", "GATTACA"]

  /** `most_Gs_in_any_sequence(data)`: the second sequence has four G's. */
  lemma MostGsOfData()
    ensures MostGs(Data) == Some(4)
  {
    var d := Data;
    BaseCounts(d[0], 'G', 1);
    BaseCounts(d[1], 'G', 4);
    BaseCounts(d[2], 'G', 1);
    MostOfThree(d, 'G', 4);
  }

  /** `most_of_given_base_in_any_sequence(data, 'A')`: three A's at most. */
  lemma MostAsOfData()
    ensures MostOfGivenBase(Data, 'A') == Some(3)
  {
    var d := Data;
    BaseCounts(d[0], 'A', 1);
    BaseCounts(d[1], 'A', 3);
    BaseCounts(d[2], 'A', 3);
    MostOfThree(d, 'A', 3);
  }

  lemma BaseCounts(s: string, base: char, n: nat)
    requires multiset(s)[base] == n
    ensures Count(s, base) == n
  {
    CountIsMultiplicity(s, base);
  }

  lemma MostOfThree(d: seq<string>, base: char, m: int)
    requires |d| == 3
    requires Count(d[0], base) <= m && Count(d[1], base) == m && Count(d[2], base) <= m
    ensures MostOfGivenBase(d, base) == Some(m)
  {
  }
}
