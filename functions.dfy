/**
 * The notebook on defining functions: default parameters (`jeeves`), functions
 * that change their list argument in place (`double_inplace`, `extend`), the
 * list-returning `double`, argument unpacking (`arrow`) and `*args`
 * (`doubler`).
 */
module Functions {
  import opened Builtins
  import opened PyLists

  // ---------------------------------------------------------------------------
  // Default parameters

  /** `jeeves(greeting="Very good", name="Sir")`: an omitted argument takes its
      default. */
  function Jeeves(greeting: string := "Very good", name: string := "Sir"): string
  {
    greeting + ", " + name
  }

  /** The five calls: defaults fill exactly the omitted parameters. */
  lemma JeevesCalls()
    ensures Jeeves() == "Very good, Sir"
    ensures Jeeves("Hello") == "Hello, Sir"
    ensures Jeeves(name := "John") == "Very good, John"
    ensures Jeeves(greeting := "Suits you") == "Suits you, Sir"
    ensures Jeeves("Hello", "Producer") == "Hello, Producer"
  {
  }

  /** The greeting and the name can be read back off the result. */
  lemma JeevesParts(greeting: string, name: string)
    ensures var r := Jeeves(greeting, name);
      r[..|greeting|] == greeting && r[|greeting|..|greeting| + 2] == ", " && r[|greeting| + 2..] == name
  {
  }

  // ---------------------------------------------------------------------------
  // `element * 2`

  /** The values `element * 2` is defined on without making a new list. */
  predicate Scalar(v: Value)
  {
    v.Int? || v.Str?
  }

  /** `element * 2`: twice the integer, the string twice over. */
  function Times2(v: Value): (r: Value)
    requires Scalar(v)
    ensures v.Int? ==> r == Int(v.i + v.i)
    ensures v.Str? ==> r == Str(v.s + v.s)
  {
    match v
    case Int(i) => Int(i * 2)
    case Str(s) =>
      assert Repeat(s, 0) == [] && Repeat(s, 1) == s + [] && s + [] == s;
      Str(Repeat(s, 2))
  }

  /** `[element * 2 for element in vec]`. */
  function Doubled(vec: seq<Value>): seq<Value>
    requires forall k :: 0 <= k < |vec| ==> Scalar(vec[k])
  {
    seq(|vec|, k requires 0 <= k < |vec| => Times2(vec[k]))
  }

  /** Doubling keeps the order: doubling a concatenation doubles each part. */
  lemma DoubledConcat(a: seq<Value>, b: seq<Value>)
    requires forall k :: 0 <= k < |a| ==> Scalar(a[k])
    requires forall k :: 0 <= k < |b| ==> Scalar(b[k])
    ensures Doubled(a + b) == Doubled(a) + Doubled(b)
  {
  }

  /** `double_inplace(vec)`: `vec[:] = [element * 2 for element in vec]`, so the
      caller's list object is the one that changes. */
  method DoubleInPlace(vec: PyList)
    requires forall k :: 0 <= k < |vec.items| ==> Scalar(vec.items[k])
    modifies vec
    ensures vec.items == Doubled(old(vec.items))
  {
    vec.SetSlice(None, None, Doubled(vec.items));
  }

  /** `z = list(range(4)); double_inplace(z)`: `z` now prints `[0, 2, 4, 6]`. */
  method DoubleInPlaceDemo() returns (z: PyList)
    ensures z.items == Ints([0, 2, 4, 6])
  {
    z := new PyList(Ints(Range(4)));
    assert Range(4) == [0, 1, 2, 3];
    DoubleInPlace(z);
  }

  /** The list-returning `double(vec)`: a new list of the doubled elements; the
      argument is read, never written. */
  method Double(vec: PyList) returns (r: PyList)
    requires forall k :: 0 <= k < |vec.items| ==> Scalar(vec.items[k])
    ensures fresh(r)
    ensures r.items == Doubled(vec.items)
  {
    r := new PyList(Doubled(vec.items));
  }

  /** `double(5)`, `double('five')`: the scalar cases of the first `double`. */
  lemma DoubleScalars()
    ensures Times2(Int(5)) == Int(10)
    ensures Times2(Str("five")) == Str("fivefive")
  {
  }

  /** `doubler(*sequence)`: every positional argument doubled, in order. */
  function Doubler(sequence: seq<Value>): (r: seq<Value>)
    requires forall k :: 0 <= k < |sequence| ==> Scalar(sequence[k])
    ensures |r| == |sequence|
    ensures forall k :: 0 <= k < |r| ==> r[k] == Times2(sequence[k])
  {
    Doubled(sequence)
  }

  /** `doubler(1, 2, 3)` and `doubler(5, 2, "Wow!")`. */
  lemma DoublerCalls()
    ensures Doubler([Int(1), Int(2), Int(3)]) == [Int(2), Int(4), Int(6)]
    ensures Doubler([Int(5), Int(2), Str("Wow!")]) == [Int(10), Int(4), Str("Wow!Wow!")]
  {
    assert Times2(Str("Wow!")) == Str("Wow!Wow!");
  }

  // ---------------------------------------------------------------------------
  // Slice assignment through an alias

  /** `x = ['a', 'b', 'c']; y = x; x[:] = ["Hooray!", "Yippee"]`: `y` names the
      same object, so it shows the new contents. */
  method SliceAssignSeenThroughAlias() returns (x: PyList, y: PyList)
    ensures x == y
    ensures y.items == Strs(["Hooray!", "Yippee"])
  {
    x := new PyList(Strs(["a", "b", "c"]));
    y := x;
    x.SetSlice(None, None, Strs(["Hooray!", "Yippee"]));
  }

  /** `letters[:] = []` empties the very list `letters` names, which any other
      name for it sees too. */
  method ClearLetters() returns (letters: PyList, alias: PyList)
    ensures letters == alias
    ensures alias.items == []
  {
    letters := new PyList(Strs(["a", "b", "c", "d", "e", "f", "g"]));
    alias := letters;
    letters.SetSlice(None, None, []);
  }

  // ---------------------------------------------------------------------------
  // extend

  /** `[pad] * n`. */
  function Padding(pad: Value, n: int): (r: seq<Value>)
    decreases n
  {
    if n <= 0 then [] else [pad] + Padding(pad, n - 1)
  }

  /** What `extend` leaves in its list: `vec + [pad] * (to - len(vec))` when the
      list is shorter than `to`, the list itself otherwise. */
  function Extended(to: int, vec: seq<Value>, pad: Value): seq<Value>
  {
    if |vec| >= to then vec else vec + Padding(pad, to - |vec|)
  }

  /** `[pad] * n` is `n` copies of `pad`. */
  lemma {:induction false} PaddingCells(pad: Value, n: int)
    ensures |Padding(pad, n)| == if n <= 0 then 0 else n
    ensures forall k :: 0 <= k < |Padding(pad, n)| ==> Padding(pad, n)[k] == pad
  {
    if n > 0 {
      PaddingCells(pad, n - 1);
    }
  }

  /** `extend` makes a short list exactly `to` long, keeping its cells in front
      and filling the rest with `pad`; a list already `to` long stays as it was. */
  lemma ExtendedShape(to: int, vec: seq<Value>, pad: Value)
    ensures |vec| >= to ==> Extended(to, vec, pad) == vec
    ensures |vec| < to ==> |Extended(to, vec, pad)| == to
    ensures |vec| < to ==> Extended(to, vec, pad)[..|vec|] == vec
    ensures |vec| < to ==> forall k :: |vec| <= k < to ==> Extended(to, vec, pad)[k] == pad
  {
    PaddingCells(pad, to - |vec|);
    if |vec| < to {
      var r := Extended(to, vec, pad);
      forall k | |vec| <= k < to
        ensures r[k] == pad
      {
        assert r[k] == Padding(pad, to - |vec|)[k - |vec|];
      }
    }
  }

  /** `extend(to, vec, pad)`: returns early when `vec` is long enough, and
      otherwise assigns the padded list to `vec[:]`. */
  method Extend(to: int, vec: PyList, pad: Value)
    modifies vec
    ensures vec.items == Extended(to, old(vec.items), pad)
  {
    if |vec.items| >= to {
      return;
    }
    vec.SetSlice(None, None, vec.items + Padding(pad, to - |vec.items|));
  }

  /** `x = list(range(3)); extend(6, x, 'a')` gives `[0, 1, 2, 'a', 'a', 'a']`;
      `extend(6, z, 'a')` leaves the nine-long `z` alone. */
  method ExtendDemo() returns (x: PyList, z: PyList)
    ensures x.items == Ints([0, 1, 2]) + Strs(["a", "a", "a"])
    ensures z.items == Ints(Range(9))
  {
    x := new PyList(Ints(Range(3)));
    Extend(6, x, Str("a"));
    assert Range(3) == [0, 1, 2];
    assert Padding(Str("a"), 3) == [Str("a"), Str("a"), Str("a")];
    z := new PyList(Ints(Range(9)));
    Extend(6, z, Str("a"));
  }

  // ---------------------------------------------------------------------------
  // Unpacking arguments

  /** `str(v)` for the values `arrow` is given. */
  function ToStr(v: Value): string
    requires Scalar(v)
  {
    match v
    case Int(i) => IntToString(i)
    case Str(s) => s
  }

  /** `arrow(before, after)`: `f"{before} -> {after}"`. */
  function Arrow(before: Value, after: Value): (r: string)
    requires Scalar(before) && Scalar(after)
    ensures |r| == |ToStr(before)| + 4 + |ToStr(after)|
    ensures r[..|ToStr(before)|] == ToStr(before)
    ensures r[|ToStr(before)|..|ToStr(before)| + 4] == " -> "
    ensures r[|r| - |ToStr(after)|..] == ToStr(after)
  {
    ToStr(before) + " -> " + ToStr(after)
  }

  /** `arrow(*args)`: the list fills the two parameters in order; any other
      length is the TypeError of a call with the wrong number of arguments. */
  function ArrowStar(args: seq<Value>): (r: Option<string>)
    requires forall k :: 0 <= k < |args| ==> Scalar(args[k])
    ensures r.Some? <==> |args| == 2
    ensures r.Some? ==> r.value == Arrow(args[0], args[1])
  {
    if |args| == 2 then Some(Arrow(args[0], args[1])) else None
  }

  /** `arrow(1, 3)`, `arrow(*[1, -1])` and `arrow(*particle)` over the items of
      `charges`. */
  lemma ArrowCalls()
    ensures Arrow(Int(1), Int(3)) == "1 -> 3"
    ensures ArrowStar([Int(1), Int(-1)]) == Some("1 -> -1")
    ensures ArrowStar([Str("neutron"), Int(0)]) == Some("neutron -> 0")
    ensures ArrowStar([Str("proton"), Int(1)]) == Some("proton -> 1")
    ensures ArrowStar([Str("electron"), Int(-1)]) == Some("electron -> -1")
  {
    SmallIntStrings();
    assert "1 -> 3" == "1" + " -> " + "3";
    assert "1 -> -1" == "1" + " -> " + "-1";
    assert "neutron -> 0" == "neutron" + " -> " + "0";
    assert "proton -> 1" == "proton" + " -> " + "1";
    assert "electron -> -1" == "electron" + " -> " + "-1";
  }

  lemma SmallIntStrings()
    ensures IntToString(0) == "0" && IntToString(1) == "1" && IntToString(3) == "3"
    ensures IntToString(-1) == "-1"
  {
  }

  /** The string on the left of the arrow is `str(before)` exactly, so an
      integer argument can be read back. */
  lemma ArrowRecoversBefore(before: int, after: Value)
    requires Scalar(after)
    ensures var r := Arrow(Int(before), after);
      ParseInt(r[..|IntToString(before)|]) == Some(before)
  {
    var r := Arrow(Int(before), after);
    assert r[..|IntToString(before)|] == IntToString(before);
    IntToStringRoundTrip(before);
  }
}
