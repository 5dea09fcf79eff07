/**
 * The maze as dictionary comprehensions: one mapping each room to its
 * capacity, and one mapping each occupied room to the number of people in
 * it, with a filter clause that leaves the empty rooms out.
 */
module MazeComprehension {
  import opened Builtins
  import opened Comprehensions
  import opened Maze
  import opened MazeCount

  /** `{name: room['capacity'] for name, room in house.items()}`, as items. */
  function CapacityItems(house: House): (items: seq<(string, int)>)
    ensures Keys(items) == Names(house)
  {
    seq(|house|, k requires 0 <= k < |house| => (house[k].0, house[k].1.capacity))
  }

  /** The capacity dictionary has the house's keys, and each gives the
      capacity of the room of that name. */
  lemma CapacityLookup(house: House, k: int)
    requires DistinctKeys(house)
    requires 0 <= k < |house|
    ensures ToMap(CapacityItems(house)).Keys == ToMap(house).Keys
    ensures house[k].0 in ToMap(CapacityItems(house))
    ensures ToMap(CapacityItems(house))[house[k].0] == house[k].1.capacity
  {
    var items := CapacityItems(house);
    assert DistinctKeys(items) by {
      forall i, j | 0 <= i < j < |items| ensures items[i].0 != items[j].0 {
        assert items[i].0 == house[i].0 && items[j].0 == house[j].0;
      }
    }
    ToMapAt(items, k);
    assert forall i :: 0 <= i < |items| ==> items[i].0 == house[i].0;
  }

  /** One item per room: its name and how many people are in it. */
  function Headcounts(house: House): (items: seq<(string, nat)>)
    ensures |items| == |house|
  {
    seq(|house|, k requires 0 <= k < |house| => (house[k].0, |house[k].1.people|))
  }

  /** The filter clause `if len(room['people']) > 0`. */
  predicate Occupied(item: (string, nat))
  {
    item.1 > 0
  }

  /** `{name: len(room['people']) for name, room in house.items()
      if len(room['people']) > 0}`, as items: it never holds a zero. */
  function OccupancyItems(house: House): (items: seq<(string, nat)>)
    ensures forall i :: 0 <= i < |items| ==> items[i].1 > 0
  {
    Filter(Occupied, Headcounts(house))
  }

  /** An entry `name: n` is in the occupancy dictionary exactly when a room of
      that name holds `n` people and `n` is not zero. */
  lemma OccupancyEntries(house: House, name: string, n: nat)
    ensures (name, n) in OccupancyItems(house) <==>
      n > 0 && exists k :: 0 <= k < |house| && house[k].0 == name && |house[k].1.people| == n
  {
    var counts := Headcounts(house);
    FilterKeeps(Occupied, counts, (name, n));
    if (name, n) in counts {
      var k :| 0 <= k < |counts| && counts[k] == (name, n);
      assert house[k].0 == name && |house[k].1.people| == n;
    }
    if n > 0 && exists k :: 0 <= k < |house| && house[k].0 == name && |house[k].1.people| == n {
      var k :| 0 <= k < |house| && house[k].0 == name && |house[k].1.people| == n;
      assert counts[k] == (name, n);
    }
  }

  /** Selecting items keeps the keys distinct. */
  lemma {:induction false} FilterDistinctKeys<K, V>(p: ((K, V)) -> bool, items: seq<(K, V)>)
    requires DistinctKeys(items)
    ensures DistinctKeys(Filter(p, items))
  {
    if items != [] {
      var init, last := items[..|items| - 1], items[|items| - 1];
      assert DistinctKeys(init);
      FilterDistinctKeys(p, init);
      var kept := Filter(p, init);
      forall i | 0 <= i < |kept| ensures kept[i].0 != last.0 {
        var j :| 0 <= j < |init| && init[j] == kept[i];
        assert items[j] == init[j];
      }
    }
  }

  /** No room name occurs twice among the occupancy items. */
  lemma OccupancyDistinct(house: House)
    requires DistinctKeys(house)
    ensures DistinctKeys(OccupancyItems(house))
  {
    var counts := Headcounts(house);
    forall i, j | 0 <= i < j < |counts| ensures counts[i].0 != counts[j].0 {
      assert counts[i].0 == house[i].0 && counts[j].0 == house[j].0;
    }
    FilterDistinctKeys(Occupied, counts);
  }

  /** The occupancy dictionary's keys are exactly the names of the occupied
      rooms, and each occupied room's name gives its headcount. */
  lemma OccupancyLookup(house: House, k: int)
    requires DistinctKeys(house)
    requires 0 <= k < |house|
    ensures house[k].0 in ToMap(OccupancyItems(house)) <==> |house[k].1.people| > 0
    ensures house[k].0 in ToMap(OccupancyItems(house)) ==>
      ToMap(OccupancyItems(house))[house[k].0] == |house[k].1.people|
  {
    var items := OccupancyItems(house);
    var name := house[k].0;
    OccupancyDistinct(house);
    if name in ToMap(items) {
      var i :| 0 <= i < |items| && items[i].0 == name;
      OccupancyEntries(house, name, items[i].1);
      var k' :| 0 <= k' < |house| && house[k'].0 == name && |house[k'].1.people| == items[i].1;
      assert k' == k;
      ToMapAt(items, i);
    }
    if |house[k].1.people| > 0 {
      OccupancyEntries(house, name, |house[k].1.people|);
      var i :| 0 <= i < |items| && items[i] == (name, |house[k].1.people|);
      assert items[i].0 == name;
    }
  }

  /** The sum of a dictionary's values. */
  function ValueSum(items: seq<(string, nat)>): nat
  {
    if items == [] then 0 else ValueSum(items[..|items| - 1]) + items[|items| - 1].1
  }

  /** Summing the occupancy dictionary gives what the counting loop finds. */
  lemma {:induction false} OccupancySum(house: House)
    ensures ValueSum(OccupancyItems(house)) == TotalOccupancy(house)
  {
    if house != [] {
      var init := house[..|house| - 1];
      var counts := Headcounts(house);
      assert counts[..|counts| - 1] == Headcounts(init);
      OccupancySum(init);
      var kept := OccupancyItems(init);
      var last := counts[|counts| - 1];
      assert OccupancyItems(house) == kept + (if Occupied(last) then [last] else []);
      assert last.1 == |house[|house| - 1].1.people|;
      if Occupied(last) {
        assert (kept + [last])[..|kept|] == kept;
        assert ValueSum(kept + [last]) == ValueSum(kept) + last.1;
      } else {
        assert kept + [] == kept;
      }
      assert TotalOccupancy(house) == TotalOccupancy(init) + last.1;
    }
  }

  /** The capacity dictionary of the notebook's house. */
  lemma HouseCapacities()
    ensures ToMap(CapacityItems(TheHouse)) == map["living" := 2, "kitchen" := 1, "garden" := 3, "bedroom" := 1]
  {
    var items := CapacityItems(TheHouse);
    assert items == [("living", 2), ("kitchen", 1), ("garden", 3), ("bedroom", 1)];
    ToMap4(("living", 2), ("kitchen", 1), ("garden", 3), ("bedroom", 1));
  }

  /** The occupancy dictionary of the notebook's house: `{'living': 1,
      'garden': 1}`, with neither empty room. */
  lemma HouseOccupancy()
    ensures OccupancyItems(TheHouse) == [("living", 1), ("garden", 1)]
    ensures ToMap(OccupancyItems(TheHouse)) == map["living" := 1, "garden" := 1]
  {
    var a: (string, nat), b: (string, nat), c: (string, nat), d: (string, nat) := ("living", 1), ("kitchen", 0), ("garden", 1), ("bedroom", 0);
    assert Headcounts(TheHouse) == [a, b, c] + [d];
    FilterConcat(Occupied, [a, b, c], [d]);
    FilterThree(Occupied, a, b, c);
    assert Filter(Occupied, [d]) == [] by {
      assert [d][..0] == [];
    }
    var items := [a, c];
    assert items[..1] == [a];
    assert [a][..0] == [];
  }

  /** Building a four-entry dictionary from its items. */
  lemma ToMap4<K, V>(a: (K, V), b: (K, V), c: (K, V), d: (K, V))
    ensures ToMap([a, b, c, d]) == map[a.0 := a.1][b.0 := b.1][c.0 := c.1][d.0 := d.1]
  {
    assert [a][..0] == [];
    assert ToMap([a]) == map[a.0 := a.1];
    assert [a, b][..1] == [a];
    assert ToMap([a, b]) == map[a.0 := a.1][b.0 := b.1];
    assert [a, b, c][..2] == [a, b];
    assert ToMap([a, b, c]) == map[a.0 := a.1][b.0 := b.1][c.0 := c.1];
    assert [a, b, c, d][..3] == [a, b, c];
  }
}
