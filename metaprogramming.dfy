/**
 * The fruit baskets of the metaprogramming notebook: a class whose `buy`
 * adds one to a counter, a loop that buys once in every basket of a list,
 * a dictionary filled with new baskets one name at a time, and a class
 * whose constructor spells out its fields.
 */
module Metaprogramming {

  class Basket {
    var count: int

    /** `Basket()`: an empty basket. */
    constructor()
      ensures count == 0
    {
      count := 0;
    }

    /** `buy()`: one more item, and nothing else changes. */
    method Buy()
      modifies this
      ensures count == old(count) + 1
    {
      count := count + 1;
    }
  }

  /** `for basket in baskets: basket.buy()`: every basket gains one item per
      time it occurs in the list, and no other object changes. */
  method BuyAll(baskets: seq<Basket>)
    modifies set k | 0 <= k < |baskets| :: baskets[k]
    ensures forall b :: b in baskets ==> b.count == old(b.count) + multiset(baskets)[b]
  {
    for i := 0 to |baskets|
      invariant forall b :: b in baskets ==> b.count == old(b.count) + multiset(baskets[..i])[b]
    {
      assert baskets[..i + 1] == baskets[..i] + [baskets[i]];
      baskets[i].Buy();
    }
    assert baskets[..|baskets|] == baskets;
  }

  /** With no basket listed twice, each is bought in exactly once. */
  method BuyAllDistinct(baskets: seq<Basket>)
    requires forall i, j :: 0 <= i < j < |baskets| ==> baskets[i] != baskets[j]
    modifies set k | 0 <= k < |baskets| :: baskets[k]
    ensures forall k :: 0 <= k < |baskets| ==> baskets[k].count == old(baskets[k].count) + 1
  {
    BuyAll(baskets);
    forall k | 0 <= k < |baskets|
      ensures multiset(baskets)[baskets[k]] == 1
    {
      DistinctOnce(baskets, k);
    }
  }

  /** In a list without repeats, each element occurs once. */
  lemma {:induction false} DistinctOnce<T>(xs: seq<T>, k: int)
    requires forall i, j :: 0 <= i < j < |xs| ==> xs[i] != xs[j]
    requires 0 <= k < |xs|
    ensures multiset(xs)[xs[k]] == 1
  {
    var init, last := xs[..|xs| - 1], xs[|xs| - 1];
    assert xs == init + [last];
    if k == |xs| - 1 {
      assert last !in init;
      assert multiset(init)[last] == 0;
    } else {
      DistinctOnce(init, k);
      assert init[k] == xs[k] && last != xs[k];
    }
  }

  /** `bananas.buy(); apples.buy(); oranges.buy()` on three new baskets, then
      the loop over `[bananas, apples, oranges]`: each holds two. */
  method FruitDemo() returns (bananas: Basket, apples: Basket, oranges: Basket)
    ensures bananas.count == 2 && apples.count == 2 && oranges.count == 2
  {
    bananas := new Basket();
    apples := new Basket();
    oranges := new Basket();
    bananas.Buy();
    apples.Buy();
    oranges.Buy();
    var fruit := [bananas, apples, oranges];
    assert fruit[0] == bananas && fruit[1] == apples && fruit[2] == oranges;
    BuyAllDistinct(fruit);
  }

  /** `baskets = {}; for name in names: baskets[name] = Basket()`: one new,
      empty basket per name, none shared between two names. */
  method NewBaskets(names: seq<string>) returns (baskets: map<string, Basket>)
    ensures baskets.Keys == set k | 0 <= k < |names| :: names[k]
    ensures forall n :: n in baskets ==> fresh(baskets[n]) && baskets[n].count == 0
    ensures forall m, n :: m in baskets && n in baskets && m != n ==> baskets[m] != baskets[n]
  {
    baskets := map[];
    for i := 0 to |names|
      invariant baskets.Keys == set k | 0 <= k < i :: names[k]
      invariant forall n :: n in baskets ==> fresh(baskets[n]) && baskets[n].count == 0
      invariant forall m, n :: m in baskets && n in baskets && m != n ==> baskets[m] != baskets[n]
    {
      var basket := new Basket();
      baskets := baskets[names[i] := basket];
    }
  }

  const BasketNames := ["bananas", "apples", "oranges", "kiwis"]

  /** `baskets['kiwis'].count` after filling the dictionary, and again after
      rebuilding it with `{name: Basket() for name in baskets}`. */
  method KiwisDemo() returns (baskets: map<string, Basket>, rebuilt: map<string, Basket>)
    ensures "kiwis" in baskets && baskets["kiwis"].count == 0
    ensures rebuilt.Keys == baskets.Keys
    ensures "kiwis" in rebuilt && rebuilt["kiwis"].count == 0 && rebuilt["kiwis"] != baskets["kiwis"]
  {
    baskets := NewBaskets(BasketNames);
    assert BasketNames[3] == "kiwis";
    rebuilt := NewBaskets(BasketNames);
  }

  class Person {
    var name: string
    var age: int
    var job: string
    var childrenCount: int

    /** `Person(name, age, job, children_count)`: the four fields, each set
        from its argument. */
    constructor(name: string, age: int, job: string, childrenCount: int)
      ensures this.name == name && this.age == age && this.job == job && this.childrenCount == childrenCount
    {
      this.name := name;
      this.age := age;
      this.job := job;
      this.childrenCount := childrenCount;
    }
  }
}
