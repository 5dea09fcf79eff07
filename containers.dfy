/**
 * The containers notebook: membership tests, changing a list in place by
 * index, slice and `append`, a second name for a list against a slice copy of
 * it, the shallowness of that copy, and `==` against `is`.
 */
module Containers {
  import opened Builtins
  import opened PyLists

  /** `'Dog' in ['Cat', 'Dog', 'Horse']`, `'Bird' in ...`, `2 in range(5)` and
      `99 in range(5)`. */
  lemma Membership()
    ensures Str("Dog") in Strs(["Cat", "Dog", "Horse"])
    ensures Str("Bird") !in Strs(["Cat", "Dog", "Horse"])
    ensures 2 in Range(5)
    ensures 99 !in Range(5)
  {
    var animals := Strs(["Cat", "Dog", "Horse"]);
    assert animals[1] == Str("Dog");
    assert animals == [Str("Cat"), Str("Dog"), Str("Horse")];
    InRange(2, 5);
    InRange(99, 5);
  }

  /** The strings a list of values holds; `None` when some cell is not a
      string. */
  function Texts(vs: seq<Value>): (r: Option<seq<string>>)
    ensures r.Some? <==> forall k :: 0 <= k < |vs| ==> vs[k].Str?
    ensures r.Some? ==> |r.value| == |vs| && forall k :: 0 <= k < |vs| ==> r.value[k] == vs[k].s
  {
    if vs == [] then Some([])
    else
      match Texts(vs[1..])
      case None => None
      case Some(rest) => if vs[0].Str? then Some([vs[0].s] + rest) else None
  }

  /** `sep.join(vs)`: `None` where Python raises TypeError because some cell is
      not a string. */
  function JoinValues(sep: string, vs: seq<Value>): (r: Option<string>)
    ensures r.Some? <==> forall k :: 0 <= k < |vs| ==> vs[k].Str?
  {
    match Texts(vs)
    case None => None
    case Some(xs) => Some(Join(sep, xs))
  }

  /** Joining string values is joining the strings they hold. */
  lemma JoinStrs(sep: string, xs: seq<string>)
    ensures JoinValues(sep, Strs(xs)) == Some(Join(sep, xs))
  {
    assert Texts(Strs(xs)).value == xs;
  }

  /** `"Sir Michael Edward Palin".split(" ")` gives the four words. */
  lemma SplitPalin()
    ensures Split("Sir Michael Edward Palin", ' ') == ["Sir", "Michael", "Edward", "Palin"]
  {
    var words := ["Sir", "Michael", "Edward", "Palin"];
    Join4([' '], "Sir", "Michael", "Edward", "Palin");
    assert "Sir Michael Edward Palin" == "Sir" + " " + "Michael" + " " + "Edward" + " " + "Palin";
    assert forall i :: 0 <= i < |words| ==> ' ' !in words[i];
    SplitJoin(words, ' ');
  }

  lemma SplitPalinCells()
    ensures Strs(Split("Sir Michael Edward Palin", ' ')) == [Str("Sir"), Str("Michael"), Str("Edward"), Str("Palin")]
  {
    SplitPalin();
    Strs4("Sir", "Michael", "Edward", "Palin");
  }

  lemma Strs4(a: string, b: string, c: string, d: string)
    ensures Strs([a, b, c, d]) == [Str(a), Str(b), Str(c), Str(d)]
  {
  }

  /** `name[0] = "Knight"; name[1:3] = ["Mike-"]; name.append("FRGS")` on any
      list: the first cell is replaced, the next two (as many as there are)
      give way to one, and a cell is added at the end. On an empty list the
      first assignment raises IndexError (`ok` is false) and nothing changes. */
  method KnightEdits(name: PyList) returns (ok: bool)
    modifies name
    ensures ok <==> |old(name.items)| >= 1
    ensures !ok ==> name.items == old(name.items)
    ensures ok ==> name.items == [Str("Knight"), Str("Mike-")] + old(name.items)[if |old(name.items)| < 3 then |old(name.items)| else 3..] + [Str("FRGS")]
  {
    ok := name.SetItem(0, Str("Knight"));
    if !ok {
      return;
    }
    name.SetSlice(Some(1), Some(3), [Str("Mike-")]);
    name.Append(Str("FRGS"));
  }

  /** `name = "Sir Michael Edward Palin".split(" ")`, the three edits, and
      `print(" ".join(name))`. */
  method RenamePalin() returns (name: PyList, printed: Option<string>)
    ensures name.items == [Str("Knight"), Str("Mike-"), Str("Palin"), Str("FRGS")]
    ensures printed == Some("Knight Mike- Palin FRGS")
  {
    var words := Strs(Split("Sir Michael Edward Palin", ' '));
    SplitPalinCells();
    assert |words| == 4 && words[3] == Str("Palin");
    name := new PyList(words);
    var ok := KnightEdits(name);
    KnightTail(words);
    printed := JoinValues(" ", name.items);
    JoinKnight();
  }

  /** The edits on a four-word name keep only its last word. */
  lemma KnightTail(xs: seq<Value>)
    requires |xs| == 4
    ensures [Str("Knight"), Str("Mike-")] + xs[3..] + [Str("FRGS")] == [Str("Knight"), Str("Mike-"), xs[3], Str("FRGS")]
  {
    assert xs[3..] == [xs[3]];
  }

  /** `" ".join(name)` on the edited list. */
  lemma JoinKnight()
    ensures JoinValues(" ", [Str("Knight"), Str("Mike-"), Str("Palin"), Str("FRGS")]) == Some("Knight Mike- Palin FRGS")
  {
    JoinStrs(" ", ["Knight", "Mike-", "Palin", "FRGS"]);
    Strs4("Knight", "Mike-", "Palin", "FRGS");
    Join4(" ", "Knight", "Mike-", "Palin", "FRGS");
    assert "Knight Mike- Palin FRGS" == "Knight" + " " + "Mike-" + " " + "Palin" + " " + "FRGS";
  }

  /** `y = x; z = x[lo:hi]; y[i] = v; z[j] = w`: `y` is a second name for `x`,
      so the first write lands in `x`; `z` is a new list, so it keeps the cells
      it copied and only the second write lands in it. The writes sit in
      separate cells, so each is tried; `okY` and `okZ` are false where that
      write raises IndexError and leaves its list as it was. */
  method AliasAndCopy(x: PyList, lo: Option<int>, hi: Option<int>, i: int, v: Value, j: int, w: Value)
    returns (y: PyList, z: PyList, okY: bool, okZ: bool)
    modifies x
    ensures y == x && fresh(z)
    ensures okY <==> Index(i, |old(x.items)|).Some?
    ensures okZ <==> Index(j, |Slice(old(x.items), lo, hi)|).Some?
    ensures x.items == Assigned(old(x.items), i, v)
    ensures z.items == Assigned(Slice(old(x.items), lo, hi), j, w)
  {
    y := x;
    z := x.GetSlice(lo, hi);
    okY := y.SetItem(i, v);
    okZ := z.SetItem(j, w);
  }

  /** `x = list(range(3)); y = x; z = x[0:3]; y[1] = "Gotcha!"; z[2] = "Really?"`:
      `x` and `y` show `[0, 'Gotcha!', 2]`, `z` shows `[0, 1, 'Really?']`. */
  method GotchaReally() returns (x: PyList, y: PyList, z: PyList)
    ensures x == y && x != z
    ensures y.items == [Int(0), Str("Gotcha!"), Int(2)]
    ensures z.items == [Int(0), Int(1), Str("Really?")]
  {
    x := new PyList(Ints(Range(3)));
    assert x.items == [Int(0), Int(1), Int(2)];
    var okY, okZ;
    y, z, okY, okZ := AliasAndCopy(x, Some(0), Some(3), 1, Str("Gotcha!"), 2, Str("Really?"));
  }

  /** `x = [['a', 'b'], 'c']; y = x; z = x[0:2]; x[0][1] = 'd'; z[1] = 'e'`: the
      copy shares the inner list, so the write into it shows through `z[0]`,
      while the write to `z[1]` does not reach `x`. */
  method ShallowCopy() returns (x: PyList, y: PyList, z: PyList, inner: PyList)
    ensures x == y && x != z && z != inner && x != inner
    ensures x.items == [List(inner), Str("c")]
    ensures z.items == [List(inner), Str("e")]
    ensures inner.items == Strs(["a", "d"])
  {
    inner := new PyList(Strs(["a", "b"]));
    x := new PyList([List(inner), Str("c")]);
    y := x;
    z := x.GetSlice(Some(0), Some(2));
    assert z.items == [List(inner), Str("c")];
    var first := x.Get(0);
    assert first == Some(List(inner));
    var ok := first.value.l.SetItem(1, Str("d"));
    assert inner.items == [Str("a"), Str("d")];
    ok := z.SetItem(1, Str("e"));
  }

  /** `[1, 2] == [1, 2]` is True but `[1, 2] is [1, 2]` is False: each literal
      makes its own object, with the same data. */
  method EqualityVersusIdentity() returns (a: PyList, b: PyList, equal: bool, identical: bool)
    ensures equal && !identical
    ensures equal == SameData(a, b) && identical == (a == b)
  {
    a := new PyList(Ints([1, 2]));
    b := new PyList(Ints([1, 2]));
    equal := a.items == b.items;
    identical := a == b;
  }
}
