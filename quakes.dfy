/**
 * The earthquake exercise: scanning a list of quakes for the largest one,
 * reading its position from its GeoJSON geometry, and the query parameters
 * of the static map requested at that point. Magnitudes and coordinates are
 * JSON numbers, modelled as exact reals; turning a number into text is a
 * parameter `show`, since float formatting is not modelled.
 */
module Quakes {
  import opened Builtins

  /** One feature of the USGS feed: `properties.mag` and
      `geometry.coordinates`. */
  datatype Quake = Quake(mag: real, coordinates: seq<real>)

  /** `quakes[i]` is the first quake of largest magnitude: none is larger,
      and all before it are smaller. */
  predicate FirstLargestAt(quakes: seq<Quake>, i: int)
  {
    && 0 <= i < |quakes|
    && (forall j :: 0 <= j < |quakes| ==> quakes[j].mag <= quakes[i].mag)
    && (forall j :: 0 <= j < i ==> quakes[j].mag < quakes[i].mag)
  }

  predicate FirstLargest(quakes: seq<Quake>, q: Quake)
  {
    exists i :: 0 <= i < |quakes| && FirstLargestAt(quakes, i) && quakes[i] == q
  }

  /** At most one position holds the first largest quake. */
  lemma FirstLargestUnique(quakes: seq<Quake>, i: int, j: int)
    requires FirstLargestAt(quakes, i) && FirstLargestAt(quakes, j)
    ensures i == j
  {
    assert quakes[i].mag == quakes[j].mag;
    assert forall k :: 0 <= k < j ==> quakes[k].mag != quakes[j].mag;
  }

  /** `largest_so_far = quakes[0]`, then replaced by every quake of strictly
      larger magnitude; `None` where `quakes[0]` raises IndexError. */
  method FindLargest(quakes: seq<Quake>) returns (largest: Option<Quake>)
    ensures largest.None? <==> quakes == []
    ensures largest.Some? ==> FirstLargest(quakes, largest.value)
  {
    if quakes == [] {
      return None;
    }
    var best := quakes[0];
    ghost var at := 0;
    for k := 0 to |quakes|
      invariant 0 <= at < |quakes| && at <= k
      invariant best == quakes[at]
      invariant forall j :: 0 <= j < k ==> quakes[j].mag <= best.mag
      invariant forall j :: 0 <= j < at ==> quakes[j].mag < best.mag
    {
      if quakes[k].mag > best.mag {
        best := quakes[k];
        at := k;
      }
    }
    assert FirstLargestAt(quakes, at);
    largest := Some(best);
  }

  /** Of two quakes of the same largest magnitude, the earlier one is kept,
      because the comparison is strict. */
  method TieKeepsFirst(a: Quake, b: Quake, c: Quake) returns (largest: Option<Quake>)
    requires a.mag < b.mag && b.mag == c.mag
    ensures largest == Some(b)
  {
    largest := FindLargest([a, b, c]);
    var i :| FirstLargestAt([a, b, c], i) && [a, b, c][i] == largest.value;
    FirstLargestUnique([a, b, c], i, 1);
  }

  /** `(coordinates[1], coordinates[0])`: `None` where the position has fewer
      than two numbers and indexing raises IndexError. */
  function LatLong(q: Quake): (r: Option<(real, real)>)
    ensures r.Some? <==> |q.coordinates| >= 2
  {
    if |q.coordinates| < 2 then None else Some((q.coordinates[1], q.coordinates[0]))
  }

  /** A GeoJSON position lists longitude first, then latitude, then
      optionally more (section 3.1.1 of RFC 7946): reading it back gives the
      latitude and the longitude it was built from. */
  lemma LatLongOfPosition(mag: real, lat: real, long: real, rest: seq<real>)
    ensures LatLong(Quake(mag, [long, lat] + rest)) == Some((lat, long))
  {
  }

  /** `"Latitude: {} Longitude: {}".format(lat, long)`. */
  function LocationLine(show: real -> string, lat: real, long: real): (r: string)
    ensures |r| == 10 + |show(lat)| + 12 + |show(long)|
    ensures r[10..10 + |show(lat)|] == show(lat)
    ensures r[|r| - |show(long)|..] == show(long)
  {
    "Latitude: " + show(lat) + " Longitude: " + show(long)
  }

  /** Finding the largest quake and printing its position: `None` where
      `quakes[0]` or a coordinate index raises IndexError. */
  method PrintLargestLocation(show: real -> string, quakes: seq<Quake>) returns (line: Option<string>)
    ensures quakes == [] ==> line.None?
    ensures line.Some? ==>
      exists i :: (0 <= i < |quakes| && FirstLargestAt(quakes, i) && |quakes[i].coordinates| >= 2 &&
                   line.value == LocationLine(show, quakes[i].coordinates[1], quakes[i].coordinates[0]))
    ensures quakes != [] && line.None? ==>
      exists i :: (0 <= i < |quakes| && FirstLargestAt(quakes, i) && |quakes[i].coordinates| < 2)
  {
    var largest := FindLargest(quakes);
    if largest.None? {
      return None;
    }
    var position := LatLong(largest.value);
    if position.None? {
      return None;
    }
    var (lat, long) := position.value;
    line := Some(LocationLine(show, lat, long));
  }

  /** `"{},{}".format(a, b)`. */
  function CommaPair(a: string, b: string): string
  {
    a + "," + b
  }

  /** Two comma-free texts come back apart when the pair is split at the
      comma. */
  lemma CommaPairSplits(a: string, b: string)
    requires ',' !in a && ',' !in b
    ensures Split(CommaPair(a, b), ',') == [a, b]
  {
    assert CommaPair(a, b) == a + [','] + b;
    SplitPrefix(a, b, ',');
    SplitPiece(b, ',');
  }

  /** The query of `request_map_at`. */
  datatype MapParams = MapParams(z: int, size: string, ll: string, l: string, lang: string)

  /** `request_map_at(lat, long, satellite=True, zoom=10, size=(400, 400))`:
      the parameters it sends; the request itself is not modelled. */
  function RequestMapAt(show: real -> string, lat: real, long: real, satellite: bool := true,
                        zoom: int := 10, size: (int, int) := (400, 400)): (p: MapParams)
    ensures p.l == "sat" <==> satellite
    ensures p.l == "map" <==> !satellite
    ensures p.z == zoom && p.lang == "en_US"
  {
    MapParams(zoom, CommaPair(IntToString(size.0), IntToString(size.1)), CommaPair(show(long), show(lat)),
              if satellite then "sat" else "map", "en_US")
  }

  /** The decimal text of an integer has no comma. */
  lemma NoCommaInInt(n: int)
    ensures ',' !in IntToString(n)
  {
    if n < 0 {
      assert IntToString(n) == "-" + NatToString(-n);
    }
  }

  /** `ll` is the longitude then the latitude, and `size` is the width then
      the height, each recoverable from the parameter. */
  lemma MapParamsRecover(show: real -> string, lat: real, long: real, satellite: bool, zoom: int, size: (int, int))
    ensures var p := RequestMapAt(show, lat, long, satellite, zoom, size);
      ',' !in show(long) && ',' !in show(lat) ==> Split(p.ll, ',') == [show(long), show(lat)]
    ensures var p := RequestMapAt(show, lat, long, satellite, zoom, size);
      var parts := Split(p.size, ',');
      |parts| == 2 && ParseInt(parts[0]) == Some(size.0) && ParseInt(parts[1]) == Some(size.1)
  {
    if ',' !in show(long) && ',' !in show(lat) {
      CommaPairSplits(show(long), show(lat));
    }
    NoCommaInInt(size.0);
    NoCommaInInt(size.1);
    CommaPairSplits(IntToString(size.0), IntToString(size.1));
    IntToStringRoundTrip(size.0);
    IntToStringRoundTrip(size.1);
  }

  /** `request_map_at(lat, long, zoom=10, satellite=False)`: a street map
      at the default size. */
  lemma NotebookRequest(show: real -> string, lat: real, long: real)
    ensures RequestMapAt(show, lat, long, zoom := 10, satellite := false)
      == MapParams(10, "400,400", show(long) + "," + show(lat), "map", "en_US")
  {
    assert IntToString(400) == "400";
  }
}
