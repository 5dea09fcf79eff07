/**
 * Counting the people in the maze and the people it can hold, with two
 * accumulators updated in one loop over `house.items()`.
 */
module MazeCount {
  import opened Builtins
  import opened Maze

  /** The sum of the capacities of the rooms. */
  function TotalCapacity(house: House): int
  {
    if house == [] then 0 else TotalCapacity(house[..|house| - 1]) + house[|house| - 1].1.capacity
  }

  /** The sum of `len(room['people'])` over the rooms. */
  function TotalOccupancy(house: House): (n: nat)
  {
    if house == [] then 0 else TotalOccupancy(house[..|house| - 1]) + |house[|house| - 1].1.people|
  }

  /** `f"House can fit {capacity} people, and currently has: {occupancy}."` */
  function Message(capacity: int, occupancy: int): string
  {
    "House can fit " + IntToString(capacity) + " people, and currently has: " + IntToString(occupancy) + "."
  }

  /** The counting loop: after the rooms so far, each accumulator holds the
      total over those rooms. */
  method CountPeople(house: House) returns (capacity: int, occupancy: int, printed: string)
    ensures capacity == TotalCapacity(house)
    ensures occupancy == TotalOccupancy(house)
    ensures printed == Message(capacity, occupancy)
  {
    capacity := 0;
    occupancy := 0;
    for i := 0 to |house|
      invariant capacity == TotalCapacity(house[..i])
      invariant occupancy == TotalOccupancy(house[..i])
    {
      var (name, room) := house[i];
      assert house[..i + 1][..i] == house[..i];
      capacity := capacity + room.capacity;
      occupancy := occupancy + |room.people|;
    }
    assert house[..|house|] == house;
    printed := Message(capacity, occupancy);
  }

  /** In a well-formed house no more people are present than fit. */
  lemma {:induction false} OccupancyWithinCapacity(house: House)
    requires forall k :: 0 <= k < |house| ==> |house[k].1.people| <= house[k].1.capacity
    ensures TotalOccupancy(house) <= TotalCapacity(house)
  {
    if house != [] {
      var init := house[..|house| - 1];
      assert forall k :: 0 <= k < |init| ==> init[k] == house[k];
      OccupancyWithinCapacity(init);
    }
  }

  /** The totals of a four-room house, room by room. */
  lemma Totals4(a: (string, Room), b: (string, Room), c: (string, Room), d: (string, Room))
    ensures TotalCapacity([a, b, c, d]) == a.1.capacity + b.1.capacity + c.1.capacity + d.1.capacity
    ensures TotalOccupancy([a, b, c, d]) == |a.1.people| + |b.1.people| + |c.1.people| + |d.1.people|
  {
    assert [a][..0] == [];
    assert TotalCapacity([a]) == a.1.capacity && TotalOccupancy([a]) == |a.1.people|;
    assert [a, b][..1] == [a];
    assert TotalCapacity([a, b]) == a.1.capacity + b.1.capacity;
    assert TotalOccupancy([a, b]) == |a.1.people| + |b.1.people|;
    assert [a, b, c][..2] == [a, b];
    assert TotalCapacity([a, b, c]) == a.1.capacity + b.1.capacity + c.1.capacity;
    assert TotalOccupancy([a, b, c]) == |a.1.people| + |b.1.people| + |c.1.people|;
    assert [a, b, c, d][..3] == [a, b, c];
  }

  /** The notebook's house fits 7 people and holds 2. */
  lemma HouseTotals()
    ensures TotalCapacity(TheHouse) == 7
    ensures TotalOccupancy(TheHouse) == 2
  {
    Totals4(("living", Living), ("kitchen", Kitchen), ("garden", Garden), ("bedroom", Bedroom));
  }

  /** What the loop prints for the notebook's house. */
  lemma HouseMessage()
    ensures Message(TotalCapacity(TheHouse), TotalOccupancy(TheHouse)) == "House can fit 7 people, and currently has: 2."
  {
    HouseTotals();
    assert IntToString(7) == "7" && IntToString(2) == "2";
    MessageText();
  }

  lemma MessageText()
    ensures "House can fit " + "7" + " people, and currently has: " + "2" + "." == "House can fit 7 people, and currently has: 2."
  {
  }
}
