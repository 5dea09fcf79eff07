/**
 * The looping notebook: `for` over a list, over a string (the "sarcasm"
 * puzzle), over a dictionary's keys and its items, unpacking in the loop
 * header, and `break`/`continue`. What a loop prints is returned as the
 * sequence of its lines.
 */
module Looping {
  import opened Builtins

  /** `for whatever in mylist: print(whatever ** 2)`. */
  method PrintSquares(mylist: seq<int>) returns (printed: seq<string>)
    ensures |printed| == |mylist|
    ensures forall k :: 0 <= k < |mylist| ==> printed[k] == IntToString(mylist[k] * mylist[k])
    ensures forall k :: 0 <= k < |mylist| ==> ParseInt(printed[k]) == Some(mylist[k] * mylist[k])
  {
    printed := [];
    for i := 0 to |mylist|
      invariant |printed| == i
      invariant forall k :: 0 <= k < i ==> printed[k] == IntToString(mylist[k] * mylist[k])
    {
      var line := IntToString(mylist[i] * mylist[i]);
      printed := printed + [line];
    }
    LinesReadBack(mylist, printed);
  }

  /** Lines that are the squares' decimal texts read back as the squares. */
  lemma LinesReadBack(mylist: seq<int>, printed: seq<string>)
    requires |printed| == |mylist|
    requires forall k :: 0 <= k < |mylist| ==> printed[k] == IntToString(mylist[k] * mylist[k])
    ensures forall k :: 0 <= k < |mylist| ==> ParseInt(printed[k]) == Some(mylist[k] * mylist[k])
  {
    forall k | 0 <= k < |mylist|
      ensures ParseInt(printed[k]) == Some(mylist[k] * mylist[k])
    {
      IntToStringRoundTrip(mylist[k] * mylist[k]);
    }
  }

  // ---------------------------------------------------------------------------
  // Sarcasm

  /** `repetition`: 3 for a letter whose lower case is in `vowels`, else 1. */
  function Repetition(letter: char): (n: int)
    ensures n == 3 <==> IsVowel(letter)
    ensures n == 1 <==> !IsVowel(letter)
  {
    if IsVowel(letter) then 3 else 1
  }

  /** `"".join(sarcasm)` at the end of the loop over `word`. */
  function Sarcastic(word: string): string
  {
    if word == [] then ""
    else
      var letter := word[|word| - 1];
      Sarcastic(word[..|word| - 1]) + Repeat([letter], Repetition(letter))
  }

  /** The list `sarcasm` holds after the loop over `word`: `letter * repetition`
      for each letter, in order. */
  function Pieces(word: string): (r: seq<string>)
    ensures |r| == |word|
  {
    seq(|word|, k requires 0 <= k < |word| => Repeat([word[k]], Repetition(word[k])))
  }

  /** The `sarcasm` loop, then `"".join(sarcasm)`. */
  method Sarcasm(word: string) returns (sarcasm: seq<string>, joined: string)
    ensures sarcasm == Pieces(word)
    ensures joined == Sarcastic(word)
  {
    sarcasm := [];
    for i := 0 to |word|
      invariant sarcasm == Pieces(word[..i])
    {
      var letter := word[i];
      var repetition := if IsVowel(letter) then 3 else 1;
      assert word[..i + 1] == word[..i] + [letter];
      PiecesSnoc(word[..i], letter);
      sarcasm := sarcasm + [Repeat([letter], repetition)];
    }
    assert word[..|word|] == word;
    joined := Join("", sarcasm);
    JoinPieces(word);
  }

  /** Joining the pieces with nothing between them gives the sarcastic word. */
  lemma {:induction false} JoinPieces(word: string)
    ensures Join("", Pieces(word)) == Sarcastic(word)
  {
    if word != [] {
      var init, letter := word[..|word| - 1], word[|word| - 1];
      JoinPieces(init);
      assert word == init + [letter];
      PiecesSnoc(init, letter);
      JoinAppend("", Pieces(init), Repeat([letter], Repetition(letter)));
    }
  }

  lemma PiecesSnoc(init: string, letter: char)
    ensures Pieces(init + [letter]) == Pieces(init) + [Repeat([letter], Repetition(letter))]
  {
    var w := init + [letter];
    assert forall k :: 0 <= k < |init| ==> w[k] == init[k];
  }

  /** Each vowel comes out three times and every other letter once, so the
      result is longer by twice the number of vowels. */
  lemma {:induction false} SarcasticLength(word: string)
    ensures |Sarcastic(word)| == |word| + 2 * VowelCount(word)
  {
    if word != [] {
      SarcasticLength(word[..|word| - 1]);
    }
  }

  /** How often a character occurs in the result: three times as often as in
      the word when it is a vowel, as often otherwise. */
  lemma {:induction false} SarcasticCount(word: string, c: char)
    ensures Count(Sarcastic(word), c) == if IsVowel(c) then 3 * Count(word, c) else Count(word, c)
  {
    if word != [] {
      var init, letter := word[..|word| - 1], word[|word| - 1];
      SarcasticCount(init, c);
      CountConcat(Sarcastic(init), Repeat([letter], Repetition(letter)), c);
      RepeatCount(letter, Repetition(letter), c);
      assert word == init + [letter];
      CountConcat(init, [letter], c);
      CountSingle(letter, c);
      assert Count(word, c) == Count(init, c) + if letter == c then 1 else 0;
    }
  }

  lemma CountConcat(a: string, b: string, c: char)
    ensures Count(a + b, c) == Count(a, c) + Count(b, c)
  {
    CountIsMultiplicity(a + b, c);
    CountIsMultiplicity(a, c);
    CountIsMultiplicity(b, c);
  }

  lemma CountSingle(letter: char, c: char)
    ensures Count([letter], c) == if letter == c then 1 else 0
  {
    assert [letter][..0] == [];
  }

  lemma {:induction false} RepeatCount(letter: char, n: int, c: char)
    ensures Count(Repeat([letter], n), c) == if letter == c && n > 0 then n else 0
    decreases n
  {
    if n > 0 {
      RepeatCount(letter, n - 1, c);
      CountConcat([letter], Repeat([letter], n - 1), c);
      CountSingle(letter, c);
    }
  }

  /** `"Okay"` becomes `"OOOkaaay"`. */
  lemma Okay()
    ensures Sarcastic("Okay") == "OOOkaaay"
  {
    JoinPieces("Okay");
    OkayPieces();
    Join4("", "OOO", "k", "aaa", "y");
    OkayText();
  }

  lemma OkayPieces()
    ensures Pieces("Okay") == ["OOO", "k", "aaa", "y"]
  {
    var p := Pieces("Okay");
    assert Repetition('O') == 3 && Repetition('k') == 1 && Repetition('a') == 3 && Repetition('y') == 1;
    assert p[0] == Repeat("O", 3) == "OOO";
    assert p[1] == Repeat("k", 1) == "k";
    assert p[2] == Repeat("a", 3) == "aaa";
    assert p[3] == Repeat("y", 1) == "y";
  }

  lemma OkayText()
    ensures "OOOkaaay" == "OOO" + "" + "k" + "" + "aaa" + "" + "y"
  {
  }

  // ---------------------------------------------------------------------------
  // Dictionaries

  /** `print(name, " is ", age, "years old.")`: `print` puts one space between
      its arguments. */
  function AgeLine(name: string, age: int): string
  {
    name + " " + " is " + " " + IntToString(age) + " " + "years old."
  }

  /** A printed age line starts with the name, and the age can be read back
      from between `"  is  "` and `" years old."`. */
  lemma AgeLineReadsBack(name: string, age: int)
    ensures var r := AgeLine(name, age);
      && |r| == |name| + 6 + |IntToString(age)| + 11
      && r[..|name|] == name
      && r[|r| - 11..] == " years old."
      && ParseInt(r[|name| + 6..|r| - 11]) == Some(age)
  {
    var r, s := AgeLine(name, age), IntToString(age);
    var p, t := name + "  is  ", " years old.";
    assert r == p + s + t by {
      assert " " + " is " + " " == "  is  " && " " + "years old." == t;
    }
    assert |p| == |name| + 6 && |t| == 11;
    assert r[..|name|] == p[..|name|] == name;
    assert r[|r| - 11..] == t;
    assert r[|p|..|r| - 11] == s;
    IntToStringRoundTrip(age);
  }

  /** What both loops over `founded` print: one line per entry, in insertion
      order. */
  function AgeLines(founded: seq<(string, int)>, currentYear: int): (lines: seq<string>)
    ensures |lines| == |founded|
  {
    seq(|founded|, k requires 0 <= k < |founded| => AgeLine(founded[k].0, currentYear - founded[k].1))
  }

  /** `for thing in founded: print(thing, " is ", current_year - founded[thing],
      "years old.")`: keys in insertion order, each looked up. */
  method AgesByKey(founded: seq<(string, int)>, currentYear: int) returns (lines: seq<string>)
    requires DistinctKeys(founded)
    ensures lines == AgeLines(founded, currentYear)
  {
    var lookup := ToMap(founded);
    lines := [];
    for i := 0 to |founded|
      invariant lines == AgeLines(founded[..i], currentYear)
    {
      var thing := founded[i].0;
      ToMapAt(founded, i);
      lines := lines + [AgeLine(thing, currentYear - lookup[thing])];
    }
    assert founded[..|founded|] == founded;
  }

  /** `for name, year in founded.items(): print(name, " is ", current_year -
      year, "years old.")`: the same lines, with no lookup. */
  method AgesByItems(founded: seq<(string, int)>, currentYear: int) returns (lines: seq<string>)
    ensures lines == AgeLines(founded, currentYear)
  {
    lines := [];
    for i := 0 to |founded|
      invariant lines == AgeLines(founded[..i], currentYear)
    {
      var (name, year) := founded[i];
      lines := lines + [AgeLine(name, currentYear - year)];
    }
    assert founded[..|founded|] == founded;
  }

  const Founded: seq<(string, int)> := [("Eric", 1943), ("UCL", 1826), ("Cambridge", 1209)]

  /** The dictionary literal has distinct keys, so both loops print the same,
      and the first line gives Eric's age in the given year. */
  lemma FoundedLines(currentYear: int)
    ensures DistinctKeys(Founded)
    ensures |AgeLines(Founded, currentYear)| == 3
    ensures AgeLines(Founded, currentYear)[0] == "Eric  is  " + IntToString(currentYear - 1943) + " years old."
  {
  }

  // ---------------------------------------------------------------------------
  // Unpacking

  /** How many of the leading entries unpack into three names. */
  function Unpackable(triples: seq<seq<int>>): (n: nat)
    ensures n <= |triples|
    ensures forall k :: 0 <= k < n ==> |triples[k]| == 3
    ensures n < |triples| ==> |triples[n]| != 3
  {
    if triples == [] || |triples[0]| != 3 then 0 else 1 + Unpackable(triples[1..])
  }

  /** `for first, middle, last in triples: print(middle)`: the middles of the
      entries before the first one that is not three long; `failed` where that
      entry makes Python raise ValueError. */
  method PrintMiddles(triples: seq<seq<int>>) returns (printed: seq<int>, failed: bool)
    ensures failed <==> Unpackable(triples) < |triples|
    ensures |printed| == Unpackable(triples)
    ensures forall k :: 0 <= k < |printed| ==> printed[k] == triples[k][1]
  {
    printed := [];
    failed := false;
    var i := 0;
    while i < |triples|
      invariant 0 <= i <= Unpackable(triples)
      invariant |printed| == i
      invariant forall k :: 0 <= k < i ==> printed[k] == triples[k][1]
    {
      if |triples[i]| != 3 {
        failed := true;
        return;
      }
      var first, middle, last := triples[i][0], triples[i][1], triples[i][2];
      printed := printed + [middle];
      i := i + 1;
    }
  }

  /** `triples = [[4, 11, 15], [39, 4, 18]]` prints 11 and 4. */
  lemma Triples()
    ensures Unpackable([[4, 11, 15], [39, 4, 18]]) == 2
  {
  }

  /** The loop over the notebook's `triples` prints the middles 11 and 4 and
      raises nothing. */
  method PrintNotebookMiddles() returns (printed: seq<int>, failed: bool)
    ensures printed == [11, 4] && !failed
  {
    var triples := [[4, 11, 15], [39, 4, 18]];
    Triples();
    printed, failed := PrintMiddles(triples);
    assert triples[0][1] == 11 && triples[1][1] == 4;
  }

  // ---------------------------------------------------------------------------
  // break and continue

  /** Where the loop stops: at the first `n == stop`, or when `range(limit)` runs out. */
  function StopAt(limit: nat, stop: int): nat
  {
    if 0 <= stop < limit then stop else limit
  }

  /** The odd numbers below `m`, ascending. */
  function Odds(m: nat): (r: seq<int>)
    ensures |r| == m / 2
  {
    seq(m / 2, k => 2 * k + 1)
  }

  /** `for n in range(limit): if n == stop: break; if n % 2 == 0: continue;
      print(n)`. */
  method BreakContinue(limit: nat, stop: int) returns (printed: seq<int>)
    ensures printed == Odds(StopAt(limit, stop))
  {
    printed := [];
    var n := 0;
    while n < limit
      invariant 0 <= n <= limit
      invariant 0 <= stop ==> n <= stop
      invariant printed == Odds(n)
    {
      if n == stop {
        break;
      }
      if n % 2 == 0 {
        n := n + 1;
        continue;
      }
      assert Odds(n + 1) == Odds(n) + [n];
      printed := printed + [n];
      n := n + 1;
    }
  }

  /** A number is printed exactly when it is odd and below where the loop
      stops; with `range(50)` and `break` at 20 that is 1, 3, ..., 19. */
  lemma OddsExactly(m: nat, x: int)
    ensures x in Odds(m) <==> 0 <= x < m && x % 2 == 1
  {
    if 0 <= x < m && x % 2 == 1 {
      assert Odds(m)[x / 2] == x;
    }
  }

  lemma BreakAtTwenty()
    ensures Odds(StopAt(50, 20)) == [1, 3, 5, 7, 9, 11, 13, 15, 17, 19]
  {
  }
}
