/**
 * The maze solution: a house is a dictionary from room names to rooms, and a
 * room records its exits (a dictionary from direction to room name), the
 * people in it and its capacity. Dictionaries are their items in insertion
 * order.
 */
module Maze {
  import opened Builtins

  /** A room: every room has exactly these three fields, and an empty room has
      an empty `people` list rather than none. */
  datatype Room = Room(exits: seq<(string, string)>, people: seq<string>, capacity: int)

  type House = seq<(string, Room)>

  /** The room names of a house, in insertion order. */
  function Names(house: House): (names: seq<string>)
    ensures |names| == |house|
  {
    seq(|house|, k requires 0 <= k < |house| => house[k].0)
  }

  /** Every exit of `room` leads to a room of `house`. */
  predicate ExitsInside(house: House, room: Room)
  {
    forall e :: 0 <= e < |room.exits| ==> room.exits[e].1 in Names(house)
  }

  /** What the notebook's structure is meant to satisfy: a dictionary has no
      key twice (room names, and directions within a room), every exit
      leads somewhere in the house, and no room holds more people than fit. */
  predicate WellFormed(house: House)
  {
    && DistinctKeys(house)
    && (forall k :: 0 <= k < |house| ==> DistinctKeys(house[k].1.exits))
    && (forall k :: 0 <= k < |house| ==> ExitsInside(house, house[k].1))
    && (forall k :: 0 <= k < |house| ==> |house[k].1.people| <= house[k].1.capacity)
  }

  const Living := Room([("north", "kitchen"), ("outside", "garden"), ("upstairs", "bedroom")], ["Graham"], 2)
  const Kitchen := Room([("south", "living")], [], 1)
  const Garden := Room([("inside", "living")], ["David"], 3)
  const Bedroom := Room([("downstairs", "living"), ("jump", "garden")], [], 1)

  /** The `house` literal. */
  const TheHouse: House := [("living", Living), ("kitchen", Kitchen), ("garden", Garden), ("bedroom", Bedroom)]

  lemma HouseNames()
    ensures Names(TheHouse) == ["living", "kitchen", "garden", "bedroom"]
  {
  }

  /** The four room names differ from one another. */
  lemma RoomNamesDistinct()
    ensures DistinctKeys(TheHouse)
  {
    assert "living" != "kitchen" && "living" != "garden" && "living" != "bedroom";
    assert "kitchen" != "garden" && "kitchen" != "bedroom" && "garden" != "bedroom";
  }

  /** Every exit of every room names a room of the house. */
  lemma ExitsLeadToRooms()
    ensures forall k :: 0 <= k < |TheHouse| ==> ExitsInside(TheHouse, TheHouse[k].1)
  {
    HouseNames();
  }

  /** The literal satisfies every invariant of the structure. */
  lemma HouseWellFormed()
    ensures WellFormed(TheHouse)
  {
    RoomNamesDistinct();
    ExitsLeadToRooms();
    ExitKeysDistinct();
  }

  /** No room has two exits in the same direction. */
  lemma ExitKeysDistinct()
    ensures forall k :: 0 <= k < |TheHouse| ==> DistinctKeys(TheHouse[k].1.exits)
  {
    assert "north" != "outside" && "north" != "upstairs" && "outside" != "upstairs";
    assert DistinctKeys(Living.exits) && DistinctKeys(Kitchen.exits);
    assert "downstairs" != "jump";
    assert DistinctKeys(Garden.exits) && DistinctKeys(Bedroom.exits);
  }

  /** `house[name]`: the dict's lookup, `None` where Python raises KeyError.
      As in a dict display, a later room of the same name would win. */
  function RoomNamed(house: House, name: string): (r: Option<Room>)
    ensures r.None? <==> name !in Names(house)
    ensures r.Some? ==> exists k :: (0 <= k < |house| && house[k] == (name, r.value)
                                     && forall j :: k < j < |house| ==> house[j].0 != name)
  {
    var m := ToMap(house);
    assert name in m <==> name in Names(house) by {
      if name in m {
        var k :| 0 <= k < |house| && house[k].0 == name;
        assert Names(house)[k] == name;
      }
      if name in Names(house) {
        var k :| 0 <= k < |house| && Names(house)[k] == name;
        assert house[k].0 in m.Keys;
      }
    }
    if name in m then
      ToMapFrom(house, name);
      Some(m[name])
    else None
  }

  /** With distinct names, looking a room up by its name finds that room. */
  lemma RoomNamedAt(house: House, k: int)
    requires DistinctKeys(house)
    requires 0 <= k < |house|
    ensures RoomNamed(house, house[k].0) == Some(house[k].1)
  {
    ToMapAt(house, k);
  }

  /** `house[room]['exits'][direction]`: the room an exit leads to. */
  function Follow(house: House, room: string, direction: string): Option<string>
  {
    match RoomNamed(house, room)
    case None => None
    case Some(r) => if direction in Keys(r.exits) then Some(ToMap(r.exits)[direction]) else None
  }

  /** Exits can be one-way: jumping from the bedroom lands in the garden, but
      the garden's only exit leads back inside to the living room. */
  lemma OneWayExit()
    ensures Follow(TheHouse, "bedroom", "jump") == Some("garden")
    ensures forall e :: 0 <= e < |Garden.exits| ==> Garden.exits[e].1 != "bedroom"
    ensures Follow(TheHouse, "garden", "inside") == Some("living")
  {
    RoomNamesDistinct();
    RoomNamedAt(TheHouse, 3);
    RoomNamedAt(TheHouse, 2);
    assert Keys(Bedroom.exits) == ["downstairs", "jump"];
    assert ToMap(Bedroom.exits)["jump"] == "garden";
    assert Keys(Garden.exits) == ["inside"];
  }

  /** The kitchen and the bedroom are empty, and say so with `[]`. */
  lemma EmptyRooms()
    ensures RoomNamed(TheHouse, "kitchen") == Some(Kitchen) && Kitchen.people == []
    ensures RoomNamed(TheHouse, "bedroom") == Some(Bedroom) && Bedroom.people == []
  {
    RoomNamesDistinct();
    RoomNamedAt(TheHouse, 1);
    RoomNamedAt(TheHouse, 3);
  }
}
