# Research Software Engineering with Python: the course notebooks' logic

The course teaches Python through notebooks made of short cells. This project
models the cells that hold self-contained logic and proves what each one
shows or claims:

- **Functional programming** (`ch07dry/020Functional`):
  - `generate_adder` is curried addition.
  - `map` agrees with a list comprehension.
  - `accumulate` is a left fold, and `summer`, `my_sum`, `bigger` and the `my_max` variants are instances of it.
  - An associative operation can be split and combined.
  - The `most_*_in_any_sequence` base counts.
- **Functions** (`ch01python/04functions`):
  - default and keyword arguments (`jeeves`);
  - `double` and `doubler`;
  - `arrow` with `*args`;
  - `double_inplace` and `extend`, which change the caller's list through `vec[:] = ...`;
  - slice assignment seen through an alias.
- **Containers** (`ch01python/025containers`):
  - membership tests;
  - index, slice and `append` edits of a list;
  - an alias versus a slice copy;
  - the shallow copy of a nested list;
  - `==` versus `is`.
- **Comprehensions and loops** (`ch01python/037comprehensions`, `ch01python/035looping`):
  - each comprehension and the `append` loop it is said to equal;
  - the vowel filter;
  - the nested and double-`for` comprehensions;
  - a dictionary comprehension;
  - the "sarcasm" loop;
  - ages computed by key or by items;
  - unpacking triples;
  - `break`/`continue`.
- **The maze** (`ch01python/030MazeSolution`, `036MazeSolution2`, `038SolutionComprehension`):
  - the `house` literal and its well-formedness;
  - the capacity/occupancy counting loop;
  - the two dictionary comprehensions over the house.
- **Earthquakes** (`ch02data/068QuakesSolution`):
  - the `largest_so_far` scan;
  - GeoJSON coordinate order;
  - the query parameters of `request_map_at`.
- **Exceptions** (`ch07dry/040Exceptions`):
  - how errors raised in `f4` propagate through `f3`, `f2` and `f1`, and what they print;
  - the fallback logic of the first `read_credentials`;
  - `MyCustomErrorType.__str__`.
- **Metaprogramming** (`ch07dry/060Metaprogramming`):
  - the `Basket` counter and buying over a list of baskets;
  - a dictionary of fresh baskets;
  - the explicit `Person` constructor.

How Python is modelled:

- **Lists.** Python's mutable list is the class `PyLists.PyList`, whose `items` field holds the cells. A cell is `Value = Int | Str | List(PyList)`. Dafny object identity is Python's `is`. `PyLists.SameData` compares the cells one by one, as `==` does on lists of numbers and strings; a nested list cell is compared by identity (see "## Left out").
- **Dictionaries.** An insertion-ordered dictionary is a sequence of `(key, value)` items, and `Builtins.ToMap` is its lookup view.
- **Built-ins.** `Builtins` defines the built-ins the notebooks lean on:
  - `range`, `sum` and `max`;
  - `str` and `int` on integers;
  - `split` and `join`;
  - `count`, `lower` and `*` on strings.
- **Numbers and printing.** Integers are unbounded, as Python's are. JSON magnitudes and coordinates are exact reals. What a cell prints is returned as a sequence of strings.

## Model

| member | source | states |
|---|---|---|
| Builtins.InRange | ch01python/025containers.ipynb.py:31-34 | `x in range(n)` holds exactly when `0 <= x < n` |
| Builtins.Max | ch01python/037comprehensions.ipynb.py:148 | `max(xs)` is absent exactly for the empty list (ValueError); otherwise it is an element and no element exceeds it |
| Builtins.IntToStringRoundTrip | ch01python/037comprehensions.ipynb.py:157 | `int(str(n)) == n` for every integer |
| Builtins.IntToStringInjective | ch01python/037comprehensions.ipynb.py:124 | distinct integers print differently, so `str(x) * 3` keys cannot collide |
| Builtins.CountIsMultiplicity | ch07dry/020Functional.ipynb.py:418 | `s.count(c)` is the number of occurrences of `c` in `s` |
| Builtins.JoinSplit | ch01python/025containers.ipynb.py:43-51 | joining the pieces of `s.split(sep)` with `sep` gives `s` back |
| Builtins.SplitJoin | ch01python/025containers.ipynb.py:43-51 | splitting the join of separator-free pieces gives the pieces back |
| Builtins.ToMapAt | ch01python/037comprehensions.ipynb.py:124 | with distinct keys, every item of a dictionary is found under its key |
| Builtins.ToMapFrom | ch01python/037comprehensions.ipynb.py:124 | every lookup's value comes from an item with that key, and no later item has that key |
| PyLists.Index | ch01python/025containers.ipynb.py:47 | a list index is valid exactly in `-len <= i < len`, and a negative index counts from the end |
| PyLists.SliceAll | ch01python/025containers.ipynb.py:133 | `x[:]` holds every cell of `x` |
| PyLists.SplicedAll | ch01python/04functions.ipynb.py:92 | `x[:] = v` makes the contents exactly `v` |
| PyLists.SplicedKeepsOutside | ch01python/025containers.ipynb.py:48 | a slice assignment keeps the cells before and after the slice and puts `v` between them |
| PyLists.Assigned | ch01python/025containers.ipynb.py:106 | `x[i] = v` changes only the cell `i` denotes, and keeps the length |
| PyLists.PyList.Get | ch01python/025containers.ipynb.py:146 | `x[i]` exists exactly for valid indexes; it is cell `i`, or cell `i + len` for a negative index |
| PyLists.PyList.Append | ch01python/025containers.ipynb.py:49 | `append` puts `v` at the end and changes nothing else |
| PyLists.PyList.SetItem | ch01python/025containers.ipynb.py:106 | `x[i] = v` succeeds exactly for valid indexes and then changes one cell; otherwise (IndexError) nothing changes |
| PyLists.PyList.GetSlice | ch01python/025containers.ipynb.py:105 | a slice is a new list holding the covered cells |
| PyLists.PyList.SetSlice | ch01python/025containers.ipynb.py:48 | a slice assignment changes the same list object, replacing the covered cells |
| Functional.GenerateAdder | ch07dry/020Functional.ipynb.py:176-179 | the closure adds `increment` to its argument |
| Functional.CurriedAdd | ch07dry/020Functional.ipynb.py:181-206 | `generate_adder(a)(b) == a + b`, so `add_3(9) == 12` and `add(8)(5) == 13` |
| Functional.MapIsComprehension | ch07dry/020Functional.ipynb.py:259-272 | `list(map(f, xs))` equals `[f(x) for x in xs]` |
| Functional.MapExamples | ch07dry/020Functional.ipynb.py:478-482 | mapping `add_five` and doubling over `range(10)` give the comprehension results |
| Functional.Accumulate | ch07dry/020Functional.ipynb.py:332-336 | the accumulator loop computes the left fold of `operation` over `data` from `initial` |
| Functional.FoldEmptyAndStep | ch07dry/020Functional.ipynb.py:332-336 | the fold of `[]` is `initial`, and each further element is combined on the right |
| Functional.FoldConcat | ch07dry/020Functional.ipynb.py:376-383 | folding `xs + ys` is folding `ys` from the fold of `xs` |
| Functional.FoldSplit | ch07dry/020Functional.ipynb.py:376-383 | for an associative operation with an identity, `fold(xs + ys)` combines `fold(xs)` and `fold(ys)` |
| Functional.Summer | ch07dry/020Functional.ipynb.py:293-303 | the `total +=` loop returns the sum of `data` |
| Functional.MySumIsSum | ch07dry/020Functional.ipynb.py:338-341 | `my_sum`, a fold of `_add` from 0, is the sum of `data` |
| Functional.MySumOfRange5 | ch07dry/020Functional.ipynb.py:345 | `my_sum(range(5)) == 10` |
| Functional.MySumSplit | ch07dry/020Functional.ipynb.py:376-383 | the sum of a concatenation is the sum of the two sums |
| Functional.Bigger | ch07dry/020Functional.ipynb.py:349-352 | `bigger` returns one of its arguments, no smaller than either, and `a` on ties |
| Functional.MyMaxLoop | ch07dry/020Functional.ipynb.py:311-319 | the `highest` loop is at least the start value and every element, and is one of them |
| Functional.MyMaxBounds | ch07dry/020Functional.ipynb.py:354-355 | the `accumulate(start, bigger, data)` version has the same bounds |
| Functional.MyMaxLambdaAgrees | ch07dry/020Functional.ipynb.py:489-490 | the `reduce` with `lambda a, b: a if a > b else b` equals the `bigger` fold |
| Functional.MyMaxExample | ch07dry/020Functional.ipynb.py:323 | `my_max([2, 5, 10, -11, -5]) == 10` for any start value up to 10 |
| Functional.MyMaxSplit | ch07dry/020Functional.ipynb.py:376-383 | the max of a concatenation is `bigger` of the two halves' maxima |
| Functional.MyMaxAllNegative | ch07dry/020Functional.ipynb.py:313-319 | starting from `sys.float_info.min`, an all-negative list gives that start value, which is no element |
| Functional.MyMaxFromFirst | ch07dry/020Functional.ipynb.py:311-319 | a maximum that starts from the first element is absent only for `[]`, and is otherwise an element that no element exceeds |
| Functional.MostOfGivenBase | ch07dry/020Functional.ipynb.py:461-462 | the result is the largest count of `base` in any sequence; there is none (ValueError) for no sequences |
| Functional.MostCs | ch07dry/020Functional.ipynb.py:415-421 | the largest number of `'C'`s in any sequence; none (ValueError) for no sequences |
| Functional.MostGs | ch07dry/020Functional.ipynb.py:424-425 | the largest number of `'G'`s in any sequence; none (ValueError) for no sequences |
| Functional.MostGsOfData | ch07dry/020Functional.ipynb.py:424-434 | `most_Gs_in_any_sequence(data) == 4` |
| Functional.MostAsOfData | ch07dry/020Functional.ipynb.py:464 | `most_of_given_base_in_any_sequence(data, 'A') == 3` |
| Functions.JeevesCalls | ch01python/04functions.ipynb.py:59-76 | defaults fill only the omitted parameters, in each of the five calls |
| Functions.JeevesParts | ch01python/04functions.ipynb.py:59-60 | the result is the greeting, a comma and a space, then the name |
| Functions.Times2 | ch01python/04functions.ipynb.py:28-31 | `x * 2` on a number doubles it, and on a string repeats it |
| Functions.DoubledConcat | ch01python/04functions.ipynb.py:114-115 | doubling a list works cell by cell, so it distributes over concatenation |
| Functions.DoubleInPlace | ch01python/04functions.ipynb.py:91-92 | `double_inplace` replaces the caller's list contents by their doubles |
| Functions.DoubleInPlaceDemo | ch01python/04functions.ipynb.py:94-96 | `z = list(range(4))` becomes `[0, 2, 4, 6]` |
| Functions.Double | ch01python/04functions.ipynb.py:114-115 | the list form of `double` returns a new list of doubles and leaves its input alone |
| Functions.DoubleScalars | ch01python/04functions.ipynb.py:31 | `double(5) == 10` and `double('five') == 'fivefive'` |
| Functions.Doubler | ch01python/04functions.ipynb.py:218-219 | `doubler(*sequence)` doubles each argument, in order |
| Functions.DoublerCalls | ch01python/04functions.ipynb.py:223-226 | `doubler(1, 2, 3) == [2, 4, 6]` and `doubler(5, 2, "Wow!") == [10, 4, "Wow!Wow!"]` |
| Functions.SliceAssignSeenThroughAlias | ch01python/04functions.ipynb.py:124-134 | after `y = x`, `x[:] = [...]` is seen through `y` |
| Functions.ClearLetters | ch01python/04functions.ipynb.py:99-100 | `letters[:] = []` empties the same list object |
| Functions.PaddingCells | ch01python/04functions.ipynb.py:155 | `[pad] * n` is `n` copies of `pad`, none for `n <= 0` |
| Functions.ExtendedShape | ch01python/04functions.ipynb.py:151-155 | a long enough list is unchanged; otherwise it grows to `to` cells, keeps its prefix and has `pad` in every new cell |
| Functions.Extend | ch01python/04functions.ipynb.py:151-155 | `extend` changes the caller's list to the extended contents |
| Functions.ExtendDemo | ch01python/04functions.ipynb.py:159-166 | `[0, 1, 2]` becomes `[0, 1, 2, 'a', 'a', 'a']`, and the nine cells of `range(9)` stay as they are |
| Functions.Arrow | ch01python/04functions.ipynb.py:181-182 | the text is `str(before)`, then `" -> "`, then `str(after)` |
| Functions.ArrowStar | ch01python/04functions.ipynb.py:187-188 | `arrow(*args)` is defined exactly for two arguments, and then it is `arrow` of those two |
| Functions.ArrowCalls | ch01python/04functions.ipynb.py:184-202 | `arrow(1, 3)`, `arrow(*[1, -1])` and the three lines printed for `charges` |
| Functions.ArrowRecoversBefore | ch01python/04functions.ipynb.py:181-182 | the text before `" -> "` reads back as the integer `before` |
| Containers.Membership | ch01python/025containers.ipynb.py:25-34 | `'Dog'` is in the list, `'Bird'` is not; `2 in range(5)` holds, and `99 in range(5)` does not |
| Containers.Texts | ch01python/025containers.ipynb.py:51 | the cells can be joined exactly when every cell is a string (otherwise TypeError) |
| Containers.JoinValues | ch01python/025containers.ipynb.py:51 | `" ".join(name)` is defined exactly for lists of strings |
| Containers.JoinStrs | ch01python/025containers.ipynb.py:51 | joining string cells is joining their texts |
| Containers.SplitPalin | ch01python/025containers.ipynb.py:43 | `"Sir Michael Edward Palin".split(" ")` gives the four names |
| Containers.KnightEdits | ch01python/025containers.ipynb.py:47-49 | `name[0] = ...` fails on an empty list; otherwise the three edits give `Knight`, `Mike-`, the cells from index 3 on, then `FRGS` |
| Containers.RenamePalin | ch01python/025containers.ipynb.py:43-51 | the list ends `['Knight', 'Mike-', 'Palin', 'FRGS']` and prints `"Knight Mike- Palin FRGS"` |
| Containers.AliasAndCopy | ch01python/025containers.ipynb.py:97-127 | a write through the alias `y` changes `x`; the slice `z` is a new list, and writes to it change only it; each write reports failure exactly for an index outside its list (IndexError) and then changes nothing |
| Containers.GotchaReally | ch01python/025containers.ipynb.py:97-127 | `x` and `y` end `[0, 'Gotcha!', 2]`, and `z` ends `[0, 1, 'Really?']` |
| Containers.ShallowCopy | ch01python/025containers.ipynb.py:141-156 | the slice copy shares the inner list, so `x[0][1] = 'd'` shows in `z[0]`, while `z[1] = 'e'` does not show in `x` |
| Containers.EqualityVersusIdentity | ch01python/025containers.ipynb.py:171-174 | two fresh `[1, 2]` are `==` but not `is` |
| Comprehensions.PowersLoop | ch01python/037comprehensions.ipynb.py:25-35 | the `append` loop builds exactly `[2 ** x for x in range(n)]` |
| Comprehensions.PowersOfTwo | ch01python/037comprehensions.ipynb.py:25 | the ten powers of two |
| Comprehensions.PowerLengthsOfTen | ch01python/037comprehensions.ipynb.py:41 | `[len(str(2 ** x)) for x in range(10)]` |
| Comprehensions.Filter | ch01python/037comprehensions.ipynb.py:50 | an `if` clause keeps only elements that satisfy it, and no more of them than the input has |
| Comprehensions.FilterKeeps | ch01python/037comprehensions.ipynb.py:50 | an element is kept exactly when it is in the input and satisfies the clause |
| Comprehensions.FilterConcat | ch01python/037comprehensions.ipynb.py:50 | filtering distributes over concatenation |
| Comprehensions.ThirdsAre | ch01python/037comprehensions.ipynb.py:50 | the `x % 3 == 0` numbers below `n` are the multiples of 3, in order |
| Comprehensions.FilteredPowersAre | ch01python/037comprehensions.ipynb.py:50 | the filtered comprehension holds `2 ** (3k)` at position `k` |
| Comprehensions.FilteredPowersLoop | ch01python/037comprehensions.ipynb.py:66-70 | the guarded `append` loop builds exactly the filtered comprehension |
| Comprehensions.FilteredPowersOfThirty | ch01python/037comprehensions.ipynb.py:50 | the ten values for `range(30)` |
| Comprehensions.UnvowelledLength | ch01python/037comprehensions.ipynb.py:56-57 | the vowel filter drops exactly the vowels |
| Comprehensions.UnvowelledKeeps | ch01python/037comprehensions.ipynb.py:56-57 | a character survives exactly when it is present and not a vowel |
| Comprehensions.UnvowelledIdempotent | ch01python/037comprehensions.ipynb.py:56-57 | filtering twice is filtering once |
| Comprehensions.EricIdle | ch01python/037comprehensions.ipynb.py:56-57 | `"Eric Idle"` becomes `"rc dl"` |
| Comprehensions.PairsAt | ch01python/037comprehensions.ipynb.py:91 | a double `for` enumerates x-major: entry `i * len(ys) + j` is `(xs[i], ys[j])` |
| Comprehensions.DifferencesAt | ch01python/037comprehensions.ipynb.py:91-103 | 16 differences in x-major order; row `y`, entry `x` of the nested form is `x - y` |
| Comprehensions.SelectedDifferencesNonNegative | ch01python/037comprehensions.ipynb.py:97 | with `if x >= y`, every difference is at least 0 |
| Comprehensions.DifferencesOfFour | ch01python/037comprehensions.ipynb.py:91-103 | the flat and nested results for `range(4)` |
| Comprehensions.LetterPairs | ch01python/037comprehensions.ipynb.py:112-115 | the flat form begins `'a1', 'a2', 'a3', 'b1'`, and the nested form's first row is `['a1', 'b1', 'c1']` |
| Comprehensions.RepeatThreeInjective | ch01python/037comprehensions.ipynb.py:124 | `s * 3` determines `s` |
| Comprehensions.TripledLookup | ch01python/037comprehensions.ipynb.py:124 | `{str(x) * 3: x for x in range(n)}` maps each `str(x) * 3` to `x` |
| Comprehensions.TripledOfThree | ch01python/037comprehensions.ipynb.py:124 | the dictionary is `{'000': 0, '111': 1, '222': 2}` |
| Looping.PrintSquares | ch01python/035looping.ipynb.py:23-27 | one printed line per element, exactly `str(whatever ** 2)` for that element, so each reads back as its square |
| Looping.LinesReadBack | ch01python/035looping.ipynb.py:23-27 | lines that are the squares' decimal texts parse back as the squares |
| Looping.Repetition | ch01python/035looping.ipynb.py:47-50 | the repetition is 3 exactly when the letter's lower case is a vowel, and 1 exactly when it is not |
| Looping.Sarcasm | ch01python/035looping.ipynb.py:43-54 | the loop appends each letter's repeat, and the join is the sarcastic word |
| Looping.JoinPieces | ch01python/035looping.ipynb.py:52-54 | joining the pieces gives the letter-by-letter sarcastic text |
| Looping.SarcasticLength | ch01python/035looping.ipynb.py:46-54 | the output length is the input length plus twice the number of vowels |
| Looping.SarcasticCount | ch01python/035looping.ipynb.py:43-54 | each vowel occurs three times as often as in the input, and every other letter equally often |
| Looping.Okay | ch01python/035looping.ipynb.py:46-54 | `"Okay"` becomes `"OOOkaaay"` |
| Looping.AgeLineReadsBack | ch01python/035looping.ipynb.py:74 | the printed line starts with the name, ends with `" years old."`, and the age reads back from between |
| Looping.AgesByKey | ch01python/035looping.ipynb.py:73-74 | looping over keys prints `current_year - founded[thing]` for each key, in order |
| Looping.AgesByItems | ch01python/035looping.ipynb.py:122-123 | looping over items prints the same lines |
| Looping.FoundedLines | ch01python/035looping.ipynb.py:69-74 | `founded` has distinct keys and gives three lines; Eric's age is `current_year - 1943` |
| Looping.Unpackable | ch01python/035looping.ipynb.py:97 | the number of leading triples that unpack into three names |
| Looping.PrintMiddles | ch01python/035looping.ipynb.py:97-98 | prints each middle element until a non-triple raises ValueError, which it reports |
| Looping.Triples | ch01python/035looping.ipynb.py:87-90 | both entries of `triples` unpack into three names |
| Looping.PrintNotebookMiddles | ch01python/035looping.ipynb.py:87-98 | the loop over `triples` prints `11` then `4` and raises nothing |
| Looping.Odds | ch01python/035looping.ipynb.py:140-142 | `m / 2` odd numbers |
| Looping.BreakContinue | ch01python/035looping.ipynb.py:137-142 | `break` at `stop` and `continue` on evens print exactly the odd numbers below the stopping point |
| Looping.OddsExactly | ch01python/035looping.ipynb.py:137-142 | `x` is printed exactly when `0 <= x < m` and `x` is odd |
| Looping.BreakAtTwenty | ch01python/035looping.ipynb.py:137-142 | `1, 3, ..., 19` |
| Maze.Names | ch01python/030MazeSolution.ipynb.py:23-55 | one name per room |
| Maze.HouseNames | ch01python/030MazeSolution.ipynb.py:23-55 | the rooms are living, kitchen, garden and bedroom |
| Maze.RoomNamesDistinct | ch01python/030MazeSolution.ipynb.py:23-55 | no room name twice |
| Maze.ExitsLeadToRooms | ch01python/030MazeSolution.ipynb.py:25-50 | every exit target names a room of the house |
| Maze.HouseWellFormed | ch01python/030MazeSolution.ipynb.py:23-55 | the house literal is well formed: distinct names, exits inside, no more people than capacity |
| Maze.ExitKeysDistinct | ch01python/030MazeSolution.ipynb.py:25-50 | no direction twice out of one room |
| Maze.RoomNamed | ch01python/030MazeSolution.ipynb.py:23-55 | `house[name]` is the dictionary lookup: it exists exactly for a room's name (otherwise KeyError) and is the last room listed under that name |
| Maze.RoomNamedAt | ch01python/030MazeSolution.ipynb.py:23-55 | with distinct names, each room is found under its own name |
| Maze.OneWayExit | ch01python/030MazeSolution.ipynb.py:40-50 | `jump` leads from the bedroom to the garden, but no garden exit leads back |
| Maze.EmptyRooms | ch01python/030MazeSolution.ipynb.py:37-64 | the kitchen and bedroom carry an empty `people` list, not a missing key |
| MazeCount.CountPeople | ch01python/036MazeSolution2.ipynb.py:59-64 | the accumulators end as the total capacity and occupancy, and the message prints them |
| MazeCount.OccupancyWithinCapacity | ch01python/036MazeSolution2.ipynb.py:59-63 | if no room is over capacity, neither is the house |
| MazeCount.HouseTotals | ch01python/036MazeSolution2.ipynb.py:59-63 | capacity 7, occupancy 2 |
| MazeCount.HouseMessage | ch01python/036MazeSolution2.ipynb.py:64 | `"House can fit 7 people, and currently has: 2."` |
| MazeComprehension.CapacityItems | ch01python/038SolutionComprehension.ipynb.py:59 | one item per room, in house order |
| MazeComprehension.CapacityLookup | ch01python/038SolutionComprehension.ipynb.py:59 | the capacity dictionary has the house's keys, each mapped to its room's capacity |
| MazeComprehension.OccupancyItems | ch01python/038SolutionComprehension.ipynb.py:65 | the occupancy dictionary never holds a zero |
| MazeComprehension.OccupancyEntries | ch01python/038SolutionComprehension.ipynb.py:65 | `name: n` is an entry exactly when a room of that name holds `n > 0` people |
| MazeComprehension.FilterDistinctKeys | ch01python/038SolutionComprehension.ipynb.py:65 | a filter clause keeps the keys distinct |
| MazeComprehension.OccupancyLookup | ch01python/038SolutionComprehension.ipynb.py:65 | a room is a key exactly when it is occupied, and then it gives its headcount |
| MazeComprehension.OccupancySum | ch01python/038SolutionComprehension.ipynb.py:65 | the values sum to the occupancy total of the counting loop |
| MazeComprehension.HouseCapacities | ch01python/038SolutionComprehension.ipynb.py:59 | `{'living': 2, 'kitchen': 1, 'garden': 3, 'bedroom': 1}` |
| MazeComprehension.HouseOccupancy | ch01python/038SolutionComprehension.ipynb.py:65 | `{'living': 1, 'garden': 1}` |
| Quakes.FirstLargestUnique | ch02data/068QuakesSolution.ipynb.py:87 | only one position holds the first largest quake |
| Quakes.FindLargest | ch02data/068QuakesSolution.ipynb.py:85-88 | empty input fails as `quakes[0]` does; otherwise the result is the first quake of largest magnitude |
| Quakes.TieKeepsFirst | ch02data/068QuakesSolution.ipynb.py:87 | on a tie, the earlier quake is kept |
| Quakes.LatLong | ch02data/068QuakesSolution.ipynb.py:92-93 | a position with fewer than two numbers raises IndexError |
| Quakes.LatLongOfPosition | ch02data/068QuakesSolution.ipynb.py:92-93 | `lat` is `coordinates[1]` and `long` is `coordinates[0]`, the longitude-first order of section 3.1.1 of RFC 7946 |
| Quakes.LocationLine | ch02data/068QuakesSolution.ipynb.py:94 | the latitude's text follows `"Latitude: "`, and the line ends with the longitude's text |
| Quakes.PrintLargestLocation | ch02data/068QuakesSolution.ipynb.py:85-94 | the printed position is that of the first largest quake, latitude first; nothing is printed where `quakes[0]` or a coordinate raises IndexError |
| Quakes.CommaPairSplits | ch02data/068QuakesSolution.ipynb.py:111-112 | a `"{},{}"` pair of comma-free texts splits back into them |
| Quakes.RequestMapAt | ch02data/068QuakesSolution.ipynb.py:106-116 | `l` is `"sat"` exactly when `satellite` and `"map"` exactly when not; `z` is the zoom and `lang` is `en_US` |
| Quakes.NoCommaInInt | ch02data/068QuakesSolution.ipynb.py:111 | an integer's text has no comma |
| Quakes.MapParamsRecover | ch02data/068QuakesSolution.ipynb.py:111-112 | `ll` is the longitude then the latitude, and `size` reads back as the width then the height |
| Quakes.NotebookRequest | ch02data/068QuakesSolution.ipynb.py:122 | `zoom=10, satellite=False` gives a `"map"` of size `"400,400"` at `"long,lat"` |
| Exceptions.RunNormally | ch07dry/040Exceptions.ipynb.py:249-275 | with no error, each level prints Before on the way in and After on the way out |
| Exceptions.RunUncaught | ch07dry/040Exceptions.ipynb.py:229-231 | an error no level handles escapes, and only the Before lines are printed |
| Exceptions.RunCaught | ch07dry/040Exceptions.ipynb.py:229-231 | the nearest level that handles the error prints Except; the After lines of the levels inside it are skipped, and those outside it still print |
| Exceptions.RunCaughtOutermost | ch07dry/040Exceptions.ipynb.py:229-231 | caught only at the outermost level, no After line is printed |
| Exceptions.F4 | ch07dry/040Exceptions.ipynb.py:237-245 | `f4` returns normally unless `x` is 1, 2 or 3, which raise ArithmeticError, SyntaxError and TypeError |
| Exceptions.F3 | ch07dry/040Exceptions.ipynb.py:249-255 | `f3` prints and propagates as its one level of the rule |
| Exceptions.F2 | ch07dry/040Exceptions.ipynb.py:259-265 | `f2` prints and propagates as its two levels of the rule |
| Exceptions.F1 | ch07dry/040Exceptions.ipynb.py:269-275 | `f1` prints and propagates as the three levels of the rule |
| Exceptions.StackLines | ch07dry/040Exceptions.ipynb.py:249-275 | the Before, After and Except lines of the three functions |
| Exceptions.TraceOfZero | ch07dry/040Exceptions.ipynb.py:237-279 | `f1(0)` prints six lines, F1Before to F1After |
| Exceptions.TraceOfOne | ch07dry/040Exceptions.ipynb.py:237-282 | `f1(1)`: F3Except, then F2After and F1After, and no F3After |
| Exceptions.TraceOfTwo | ch07dry/040Exceptions.ipynb.py:237-285 | `f1(2)`: F2Except, then F1After |
| Exceptions.TraceOfThree | ch07dry/040Exceptions.ipynb.py:237-288 | `f1(3)`: ends with F1Except, with no After line |
| Exceptions.ZeroDivisionCaughtByF3 | ch07dry/040Exceptions.ipynb.py:249-255 | a ZeroDivisionError is an ArithmeticError, so `f3` catches it |
| Exceptions.ReadCredentials | ch07dry/040Exceptions.ipynb.py:158-174 | a password exactly when the file exists and has both keys, and then the file's user and password; otherwise `"anonymous"` and no password, printing "Password file missing" for a missing file and "Expected keys not found in file" for a missing key |
| Exceptions.NotebookCredentials | ch07dry/040Exceptions.ipynb.py:142-183 | the three calls: `('eidle', 'secret')`, missing file, and misnamed key |
| Exceptions.ErrorTextCategory | ch07dry/040Exceptions.ipynb.py:81-86 | the message is `"Error, category "` then a text that reads back as the category |
| Exceptions.Error404 | ch07dry/040Exceptions.ipynb.py:89 | `"Error, category 404"` |
| Metaprogramming.Basket.constructor | ch07dry/060Metaprogramming.ipynb.py:64-66 | a new basket has count 0 |
| Metaprogramming.Basket.Buy | ch07dry/060Metaprogramming.ipynb.py:67-68 | `buy()` adds exactly 1 to the count |
| Metaprogramming.BuyAll | ch07dry/060Metaprogramming.ipynb.py:91-93 | each basket gains one item per time it is listed; nothing else changes |
| Metaprogramming.BuyAllDistinct | ch07dry/060Metaprogramming.ipynb.py:91-93 | across distinct baskets, each gains exactly one |
| Metaprogramming.DistinctOnce | ch07dry/060Metaprogramming.ipynb.py:91 | in a repeat-free list, each element occurs once |
| Metaprogramming.FruitDemo | ch07dry/060Metaprogramming.ipynb.py:70-93 | after the three buys and the loop, each basket holds 2 |
| Metaprogramming.NewBaskets | ch07dry/060Metaprogramming.ipynb.py:153-155 | one fresh empty basket per name, none shared between names |
| Metaprogramming.KiwisDemo | ch07dry/060Metaprogramming.ipynb.py:153-169 | `baskets['kiwis'].count == 0`, both times, and the comprehension builds a new basket |
| Metaprogramming.Person.constructor | ch07dry/060Metaprogramming.ipynb.py:331-336 | the four fields are set from their arguments |

## Left out

- Input and output. Printing is modelled as returned strings. The network requests `requests.get` and the yandex static map (ch02data/068QuakesSolution.ipynb.py:118), plotting and notebook display are left out, because they are I/O.
- Time. The `datetime.now()` year is the parameter `currentYear`, because a clock is not a function of the program.
- Files. `open`, YAML parsing and `close` in `read_credentials` are replaced by a map from file names to their parsed top-level mapping. The model does not cover:
  - a file that parses to something other than a mapping;
  - a file handle that is never closed.
- The later `read_credentials` versions are omitted, as are the `except:` catch-all around the misspelled `yaml.lod`, the `analysis` type sniffing, `inspect.getmro` and exception chaining. They depend on library behaviour that is not modelled.
- `globals()`, `setattr`, `locals()` and method binding, because dynamic namespace mutation has no counterpart here. The `Person` that loops over `locals()` is one of them. Only the explicit constructor is modelled.
- `arrowify(**kwargs)` and `somefunc(*args, **kwargs)` only print their arguments, and keyword-argument dictionaries are not modelled.
- Floating point. Quake magnitudes and coordinates are exact reals. `str`/`format` of a float is the parameter `show`, because float formatting is not modelled.
  - `Functional.Summer`: sums integers and starts from `0`, not the float `0.0`.
  - `Functional.MyMaxLoop`: takes the starting value as a parameter. `MyMaxAllNegative` uses the exact value of `sys.float_info.min`.
- Tuples, `range` objects and strings are immutable values, so the model treats them as sequences. `range(9)` passed to `extend` becomes a list of its nine numbers.
- Built-in demonstrations are not modelled: `any`/`all`, dictionary methods, sets and truthiness. Neither are the `Greengraph` and `boids` exercises or the NumPy material.
- Builtins.Lower: changes only ASCII `A`-`Z`, because Unicode case mapping is not modelled.
- Functions.Times2: covers integers and strings only. `double([5])` (list repetition) is left out, and so is the TypeError of `*` on other values.
- Functions.Arrow: covers integers and strings only, because those are the only values the notebook passes.
- PyLists.SameData: compares a nested list cell by identity, where Python's `==` compares nested lists recursively. No cell the notebooks compare holds a list, and a recursive comparison would have to read every list reachable from the two.
- Exceptions.ErrorTextCategory: the category is an integer or `None`, the only values the notebook uses.
- Exceptions.Catches: knows only the hierarchy among the six error kinds used, where ZeroDivisionError is below ArithmeticError.

## Findings

| source | as written | input that shows it | evidently intended | confidence | as-written member | corrected member |
|---|---|---|---|---|---|---|
| ch07dry/020Functional.ipynb.py:313 | `my_max` starts from `sys.float_info.min`, the smallest positive normalised float, and the `accumulate`/`reduce` versions at 355, 368 and 490 do the same | `my_max([-11, -5])` returns `2.2250738585072014e-308`, which is not in the list | the largest element: start from the first element (or negative infinity) | not executed | Functional.MyMaxAllNegative | Functional.MyMaxFromFirst |
