/**
 * Python's list object. A list is a mutable object on the heap: assigning it to
 * a second name makes an alias, while slicing copies its cells into a new list.
 * The cells hold values, and a cell holding a list holds a reference to it, so
 * a slice copy is shallow.
 */
module PyLists {
  import opened Builtins

  /** What a list cell holds in the notebooks: integers, strings and lists. */
  datatype Value = Int(i: int) | Str(s: string) | List(l: PyList)

  /** `[Int(x) for x in xs]`: an integer list literal. */
  function Ints(xs: seq<int>): (r: seq<Value>)
    ensures |r| == |xs| && forall k :: 0 <= k < |r| ==> r[k] == Int(xs[k])
  {
    seq(|xs|, k requires 0 <= k < |xs| => Int(xs[k]))
  }

  /** A list of string literals. */
  function Strs(xs: seq<string>): (r: seq<Value>)
    ensures |r| == |xs| && forall k :: 0 <= k < |r| ==> r[k] == Str(xs[k])
  {
    seq(|xs|, k requires 0 <= k < |xs| => Str(xs[k]))
  }

  /** The cell a Python index denotes: a negative index counts from the end.
      `None` where Python raises IndexError. */
  function Index(i: int, len: nat): (r: Option<nat>)
    ensures r.Some? <==> -(len as int) <= i < len
    ensures r.Some? ==> r.value < len && (r.value == i || r.value == i + len)
  {
    if 0 <= i < len then Some(i) else if -(len as int) <= i < 0 then Some(i + len) else None
  }

  /** One bound of a slice `[lo:hi]`, `None` when omitted: a negative bound
      counts from the end, and the result is clamped into `0..len`. */
  function Bound(b: Option<int>, default: nat, len: nat): (r: nat)
    requires default <= len
    ensures r <= len
    ensures b.None? ==> r == default
    ensures b.Some? && 0 <= b.value <= len ==> r == b.value
  {
    match b
    case None => default
    case Some(i) =>
      if i < 0 then (if i + len < 0 then 0 else i + len)
      else if i > len then len else i
  }

  /** The cells `s[lo:hi]` covers, as a half-open range; an upper bound below
      the lower one gives the empty range at the lower one. */
  function SliceRange<T>(s: seq<T>, lo: Option<int>, hi: Option<int>): (r: (nat, nat))
    ensures r.0 <= r.1 <= |s|
  {
    var a := Bound(lo, 0, |s|);
    var b := Bound(hi, |s|, |s|);
    (a, if b < a then a else b)
  }

  /** The contents of the copy `s[lo:hi]` makes. */
  function Slice<T>(s: seq<T>, lo: Option<int>, hi: Option<int>): seq<T>
  {
    var r := SliceRange(s, lo, hi);
    s[r.0..r.1]
  }

  /** The contents after `s[lo:hi] = v`: the covered cells give way to `v`. */
  function Spliced<T>(s: seq<T>, lo: Option<int>, hi: Option<int>, v: seq<T>): seq<T>
  {
    var r := SliceRange(s, lo, hi);
    s[..r.0] + v + s[r.1..]
  }

  /** `s[:]` copies every cell. */
  lemma SliceAll<T>(s: seq<T>)
    ensures Slice(s, None, None) == s
  {
  }

  /** `s[:] = v` replaces the whole contents by `v`. */
  lemma SplicedAll<T>(s: seq<T>, v: seq<T>)
    ensures Spliced(s, None, None, v) == v
  {
  }

  /** A slice assignment keeps what lies before and after the covered cells,
      in place, and the new cells sit between them. */
  lemma SplicedKeepsOutside<T>(s: seq<T>, lo: Option<int>, hi: Option<int>, v: seq<T>)
    ensures var r := SliceRange(s, lo, hi);
      var t := Spliced(s, lo, hi, v);
      && |t| == |s| - (r.1 - r.0) + |v|
      && t[..r.0] == s[..r.0]
      && t[r.0..r.0 + |v|] == v
      && t[r.0 + |v|..] == s[r.1..]
  {
  }

  /** The contents after `s[i] = v`; an index outside the list leaves them as
      they were (Python raises IndexError before writing). */
  function Assigned(s: seq<Value>, i: int, v: Value): (r: seq<Value>)
    ensures |r| == |s|
    ensures forall k :: 0 <= k < |s| && k != i && k != i + |s| ==> r[k] == s[k]
    ensures 0 <= i < |s| ==> r[i] == v
    ensures -(|s| as int) <= i < 0 ==> r[i + |s|] == v
  {
    match Index(i, |s|)
    case None => s
    case Some(k) => s[k := v]
  }

  class PyList {
    var items: seq<Value>

    /** A list literal, or `list(...)` of an iterable: a new object. */
    constructor (items: seq<Value>)
      ensures this.items == items
    {
      this.items := items;
    }

    /** `x[i]`: `None` where Python raises IndexError. */
    function Get(i: int): (r: Option<Value>)
      reads this
      ensures r.Some? <==> -(|items| as int) <= i < |items|
      ensures 0 <= i < |items| ==> r == Some(items[i])
      ensures -(|items| as int) <= i < 0 ==> r == Some(items[i + |items|])
    {
      match Index(i, |items|)
      case None => None
      case Some(k) => Some(items[k])
    }

    /** `x.append(v)`. */
    method Append(v: Value)
      modifies this
      ensures items == old(items) + [v]
    {
      items := items + [v];
    }

    /** `x[i] = v`; `ok` is false where Python raises IndexError, and then
        nothing changes. */
    method SetItem(i: int, v: Value) returns (ok: bool)
      modifies this
      ensures ok <==> -(|old(items)| as int) <= i < |old(items)|
      ensures items == Assigned(old(items), i, v)
    {
      match Index(i, |items|)
      case None =>
        ok := false;
      case Some(k) =>
        items := items[k := v];
        ok := true;
    }

    /** `x[lo:hi]`: a new list holding the same cells. */
    method GetSlice(lo: Option<int>, hi: Option<int>) returns (copy: PyList)
      ensures fresh(copy)
      ensures copy.items == Slice(items, lo, hi)
    {
      copy := new PyList(Slice(items, lo, hi));
    }

    /** `x[lo:hi] = v`: the same list object, its covered cells replaced. */
    method SetSlice(lo: Option<int>, hi: Option<int>, v: seq<Value>)
      modifies this
      ensures items == Spliced(old(items), lo, hi, v)
    {
      items := Spliced(items, lo, hi, v);
    }
  }

  /** `a == b` for lists whose cells are compared as the notebooks compare
      them: cell by cell, a nested list by identity. */
  predicate SameData(a: PyList, b: PyList)
    reads a, b
  {
    a.items == b.items
  }
}
