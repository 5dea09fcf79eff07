/**
 * The Python built-ins that the course notebooks lean on, modelled on values:
 * `range`, `sum`, `max`, `str` of an integer, `str.lower` on letters, `str * n`,
 * `str.count` of one character, `str.split` on one separator, `sep.join`,
 * and the dictionary view of an insertion-ordered list of items.
 */
module Builtins {

  datatype Option<T> = None | Some(value: T)

  /** `range(n)` as the list it enumerates: 0, 1, ..., n - 1. */
  function Range(n: int): (r: seq<int>)
    ensures |r| == if n < 0 then 0 else n
    ensures forall i :: 0 <= i < |r| ==> r[i] == i
  {
    seq(if n < 0 then 0 else n, i => i)
  }

  /** `x in range(n)` holds exactly for `0 <= x < n`. */
  lemma InRange(x: int, n: int)
    ensures x in Range(n) <==> 0 <= x < n
  {
    var r := Range(n);
    if x in r {
      var i :| 0 <= i < |r| && r[i] == x;
    }
    if 0 <= x < n {
      assert r[x] == x;
    }
  }

  /** `sum(xs)`, adding from the left as Python does. */
  function Sum(xs: seq<int>): int
  {
    if xs == [] then 0 else Sum(xs[..|xs| - 1]) + xs[|xs| - 1]
  }

  /** `max(xs)`: the first largest element; `None` where Python raises ValueError
      (an empty argument). */
  function Max(xs: seq<int>): (r: Option<int>)
    ensures r.None? <==> xs == []
    ensures r.Some? ==> r.value in xs
    ensures r.Some? ==> forall i :: 0 <= i < |xs| ==> xs[i] <= r.value
  {
    if xs == [] then None
    else
      match Max(xs[1..])
      case None => Some(xs[0])
      case Some(m) => if m > xs[0] then Some(m) else Some(xs[0])
  }

  // ---------------------------------------------------------------------------
  // Strings

  /** The decimal digit character of `d`. */
  function DigitChar(d: int): (c: char)
    requires 0 <= d < 10
    ensures '0' <= c <= '9' && c as int - '0' as int == d
  {
    (d + '0' as int) as char
  }

  predicate IsDigits(s: string)
  {
    forall i :: 0 <= i < |s| ==> '0' <= s[i] <= '9'
  }

  /** `str(n)` for a non-negative integer: its decimal digits, no leading zero. */
  function NatToString(n: nat): (s: string)
    ensures |s| >= 1 && IsDigits(s)
    ensures |s| > 1 ==> s[0] != '0'
  {
    if n < 10 then [DigitChar(n)] else NatToString(n / 10) + [DigitChar(n % 10)]
  }

  /** `str(n)` for any integer: a minus sign in front of a negative one. */
  function IntToString(n: int): (s: string)
    ensures |s| >= 1
    ensures n < 0 <==> s[0] == '-'
  {
    if n < 0 then "-" + NatToString(-n) else NatToString(n)
  }

  /** The number a string of decimal digits denotes (the inverse of `NatToString`). */
  function DigitsValue(s: string): nat
    requires IsDigits(s)
  {
    if s == [] then 0
    else DigitsValue(s[..|s| - 1]) * 10 + (s[|s| - 1] as int - '0' as int)
  }

  /** `int(s)` for the strings `str` produces from integers: an optional minus
      sign, then decimal digits; `None` for every other string, including some
      (`"+5"`, `" 5"`, `"1_000"`) that Python's `int` accepts. */
  function ParseInt(s: string): Option<int>
  {
    if |s| >= 2 && s[0] == '-' && IsDigits(s[1..]) then Some(0 - DigitsValue(s[1..]) as int)
    else if |s| >= 1 && IsDigits(s) then Some(DigitsValue(s))
    else None
  }

  lemma {:induction false} NatToStringRoundTrip(n: nat)
    ensures DigitsValue(NatToString(n)) == n
  {
    if n >= 10 {
      var s := NatToString(n / 10) + [DigitChar(n % 10)];
      assert s[..|s| - 1] == NatToString(n / 10);
      NatToStringRoundTrip(n / 10);
    }
  }

  /** `int(str(n)) == n`: the decimal rendering loses nothing. */
  lemma IntToStringRoundTrip(n: int)
    ensures ParseInt(IntToString(n)) == Some(n)
  {
    if n < 0 {
      NegativeRoundTrip(-n);
    } else {
      var t := NatToString(n);
      NatToStringRoundTrip(n);
      assert t[0] != '-';
    }
  }

  /** The minus sign in front of the digits of `m` reads back as `-m`. */
  lemma NegativeRoundTrip(m: nat)
    requires m > 0
    ensures ParseInt("-" + NatToString(m)) == Some(-(m as int))
  {
    var t := NatToString(m);
    var s := "-" + t;
    assert s[1..] == t;
    NatToStringRoundTrip(m);
  }

  /** Distinct integers print differently. */
  lemma IntToStringInjective(a: int, b: int)
    requires IntToString(a) == IntToString(b)
    ensures a == b
  {
    IntToStringRoundTrip(a);
    IntToStringRoundTrip(b);
  }

  /** `c.lower()` on one character; letters outside A-Z are left alone. */
  function Lower(c: char): (l: char)
    ensures 'A' <= c <= 'Z' ==> 'a' <= l <= 'z' && l as int - 'a' as int == c as int - 'A' as int
    ensures !('A' <= c <= 'Z') ==> l == c
  {
    if 'A' <= c <= 'Z' then (c as int - 'A' as int + 'a' as int) as char else c
  }

  /** `c.lower() in "aeiou"`. */
  predicate IsVowel(c: char)
  {
    Lower(c) in "aeiou"
  }

  function VowelCount(s: string): (n: nat)
    ensures n <= |s|
  {
    if s == [] then 0 else VowelCount(s[..|s| - 1]) + (if IsVowel(s[|s| - 1]) then 1 else 0)
  }

  /** `s * n`: `n` copies of `s` end to end, empty when `n <= 0`. */
  function Repeat(s: string, n: int): (r: string)
    ensures |r| == if n <= 0 then 0 else n * |s|
    ensures forall c :: c in r ==> c in s
    decreases n
  {
    if n <= 0 then "" else s + Repeat(s, n - 1)
  }

  /** `s.count(c)` for the one-character substring `c`. */
  function Count(s: string, c: char): (n: nat)
    ensures n <= |s|
  {
    if s == [] then 0 else Count(s[..|s| - 1], c) + (if s[|s| - 1] == c then 1 else 0)
  }

  /** Counting a character is taking its multiplicity. */
  lemma {:induction false} CountIsMultiplicity(s: string, c: char)
    ensures Count(s, c) == multiset(s)[c]
  {
    if s != [] {
      var init := s[..|s| - 1];
      assert s == init + [s[|s| - 1]];
      CountIsMultiplicity(init, c);
    }
  }

  /** `sep.join(parts)`. */
  function Join(sep: string, parts: seq<string>): string
  {
    if |parts| == 0 then ""
    else if |parts| == 1 then parts[0]
    else parts[0] + sep + Join(sep, parts[1..])
  }

  /** `s.split(sep)` for a one-character separator: every occurrence cuts, so
      empty pieces are kept and there is always at least one piece. */
  function Split(s: string, sep: char): (r: seq<string>)
    ensures |r| >= 1
    ensures forall i :: 0 <= i < |r| ==> sep !in r[i]
  {
    if s == [] then [""]
    else if s[0] == sep then [""] + Split(s[1..], sep)
    else
      var rest := Split(s[1..], sep);
      [[s[0]] + rest[0]] + rest[1..]
  }

  /** Joining the pieces of a split with the separator gives the string back. */
  lemma {:induction false} JoinSplit(s: string, sep: char)
    ensures Join([sep], Split(s, sep)) == s
  {
    if s != [] {
      var rest := Split(s[1..], sep);
      JoinSplit(s[1..], sep);
      if s[0] == sep {
        assert Split(s, sep) == [""] + rest;
        assert Join([sep], [""] + rest) == "" + [sep] + Join([sep], rest);
      } else if |rest| == 1 {
        assert Split(s, sep) == [[s[0]] + rest[0]];
      } else {
        var parts := [[s[0]] + rest[0]] + rest[1..];
        assert parts[1..] == rest[1..];
        assert Join([sep], rest) == rest[0] + [sep] + Join([sep], rest[1..]);
      }
    }
  }

  /** Joining one more part puts the separator and the part at the end. */
  lemma {:induction false} JoinAppend(sep: string, parts: seq<string>, x: string)
    ensures Join(sep, parts + [x]) == if parts == [] then x else Join(sep, parts) + sep + x
  {
    if |parts| == 1 {
      assert parts + [x] == [parts[0], x];
    } else if |parts| > 1 {
      JoinAppend(sep, parts[1..], x);
      assert (parts + [x])[1..] == parts[1..] + [x];
    }
  }

  /** A join of four parts, written out. */
  lemma Join4(sep: string, a: string, b: string, c: string, d: string)
    ensures Join(sep, [a, b, c, d]) == a + sep + b + sep + c + sep + d
  {
    var p := [a, b, c, d];
    assert p[1..] == [b, c, d];
    assert p[1..][1..] == [c, d];
    assert p[1..][1..][1..] == [d];
    assert Join(sep, [c, d]) == c + sep + d;
    assert Join(sep, [b, c, d]) == b + sep + (c + sep + d);
  }

  /** Splitting a join of separator-free pieces gives the pieces back. */
  lemma {:induction false} SplitJoin(parts: seq<string>, sep: char)
    requires |parts| >= 1
    requires forall i :: 0 <= i < |parts| ==> sep !in parts[i]
    ensures Split(Join([sep], parts), sep) == parts
  {
    if |parts| == 1 {
      SplitPiece(parts[0], sep);
    } else {
      SplitJoin(parts[1..], sep);
      SplitPrefix(parts[0], Join([sep], parts[1..]), sep);
      assert [parts[0]] + parts[1..] == parts;
    }
  }

  /** A separator-free string splits into itself. */
  lemma {:induction false} SplitPiece(p: string, sep: char)
    requires sep !in p
    ensures Split(p, sep) == [p]
  {
    if p != [] {
      SplitPiece(p[1..], sep);
      assert [p[0]] + p[1..] == p;
    }
  }

  /** A separator-free piece, the separator, then `t`: the piece comes off first. */
  lemma {:induction false} SplitPrefix(p: string, t: string, sep: char)
    requires sep !in p
    ensures Split(p + [sep] + t, sep) == [p] + Split(t, sep)
  {
    if p == [] {
      assert p + [sep] + t == [sep] + t;
      assert ([sep] + t)[1..] == t;
    } else {
      SplitPrefix(p[1..], t, sep);
      var s := p + [sep] + t;
      assert s[0] == p[0] && s[1..] == p[1..] + [sep] + t;
      var rest := Split(s[1..], sep);
      assert rest == [p[1..]] + Split(t, sep);
      assert [p[0]] + rest[0] == p;
      assert rest[1..] == Split(t, sep);
    }
  }

  // ---------------------------------------------------------------------------
  // Dictionaries

  /** A Python dictionary as its items in insertion order; `ToMap` is the view
      that lookups and `==` see. Building a dict from items lets a later item
      override an earlier one with the same key. */
  function ToMap<K, V>(items: seq<(K, V)>): (m: map<K, V>)
    ensures m.Keys == set i | 0 <= i < |items| :: items[i].0
  {
    if items == [] then map[]
    else ToMap(items[..|items| - 1])[items[|items| - 1].0 := items[|items| - 1].1]
  }

  function Keys<K, V>(items: seq<(K, V)>): seq<K>
  {
    seq(|items|, i requires 0 <= i < |items| => items[i].0)
  }

  /** What a Python dict's items always satisfy: no key twice. */
  predicate DistinctKeys<K(==), V>(items: seq<(K, V)>)
  {
    forall i, j :: 0 <= i < j < |items| ==> items[i].0 != items[j].0
  }

  /** Every lookup comes from an item: the last one with that key. */
  lemma {:induction false} ToMapFrom<K, V>(items: seq<(K, V)>, key: K)
    requires key in ToMap(items)
    ensures exists k :: (0 <= k < |items| && items[k] == (key, ToMap(items)[key])
                         && forall j :: k < j < |items| ==> items[j].0 != key)
  {
    var last := |items| - 1;
    if items[last].0 == key {
      assert items[last] == (key, ToMap(items)[key]);
    } else {
      var init := items[..last];
      ToMapFrom(init, key);
      var k :| (0 <= k < |init| && init[k] == (key, ToMap(init)[key])
                && forall j :: k < j < |init| ==> init[j].0 != key);
      assert items[k] == init[k];
      assert forall j :: k < j < |items| ==> items[j].0 != key by {
        forall j | k < j < |items| ensures items[j].0 != key {
          if j < last { assert items[j] == init[j]; }
        }
      }
    }
  }

  /** With distinct keys every item survives into the lookup view. */
  lemma {:induction false} ToMapAt<K, V>(items: seq<(K, V)>, i: int)
    requires DistinctKeys(items)
    requires 0 <= i < |items|
    ensures items[i].0 in ToMap(items) && ToMap(items)[items[i].0] == items[i].1
  {
    if i < |items| - 1 {
      var init := items[..|items| - 1];
      assert DistinctKeys(init);
      ToMapAt(init, i);
      assert items[i] == init[i];
    }
  }
}
