/**
 * The bookkeeping behind the regional map: fixed coordinates per city, the
 * categories found in each city (in first-seen order), the label positions of
 * the cities that have coordinates, and one marker position per
 * (city, category) statistics row.
 */
module RegionalMap {
  import opened Frames

  /** A coordinate pair; a city without coordinates has `(None, None)`. */
  datatype Coord = Coord(lat: Option<real>, lon: Option<real>)

  /** Both halves present: the test `base_lat is not None and base_lon is not None`. */
  predicate Located(c: Coord) {
    c.lat.Some? && c.lon.Some?
  }

  /** The four cities with hard-coded coordinates. */
  const KnownCities: seq<string> := ["Palo Alto", "Los Angeles", "Sacramento", "San Francisco"]

  /** The hard-coded coordinate table; any other city has none. */
  function Coordinates(city: string): (c: Coord)
    ensures Located(c) <==> city in KnownCities
    ensures !Located(c) ==> c == Coord(None, None)
    ensures city == "Palo Alto" ==> c == Coord(Some(37.4419), Some(-122.1430))
    ensures city == "Los Angeles" ==> c == Coord(Some(34.0522), Some(-118.2437))
    ensures city == "Sacramento" ==> c == Coord(Some(38.5816), Some(-121.4944))
    ensures city == "San Francisco" ==> c == Coord(Some(37.7749), Some(-122.4194))
  {
    if city == "Palo Alto" then Coord(Some(37.4419), Some(-122.1430))
    else if city == "Los Angeles" then Coord(Some(34.0522), Some(-118.2437))
    else if city == "Sacramento" then Coord(Some(38.5816), Some(-121.4944))
    else if city == "San Francisco" then Coord(Some(37.7749), Some(-122.4194))
    else Coord(None, None)
  }

  /** The coordinate dictionary for every location of the table. */
  method AllCoordinates(locations: seq<string>) returns (coords: map<string, Coord>)
    ensures forall city :: city in coords <==> city in locations
    ensures forall city :: city in coords ==> coords[city] == Coordinates(city)
  {
    coords := map[];
    var i := 0;
    while i < |locations|
      invariant 0 <= i <= |locations|
      invariant forall city :: city in coords <==> city in locations[..i]
      invariant forall city :: city in coords ==> coords[city] == Coordinates(city)
    {
      assert locations[..i + 1] == locations[..i] + [locations[i]];
      coords := coords[locations[i] := Coordinates(locations[i])];
      i := i + 1;
    }
    assert locations[..i] == locations;
  }

  // ---------------------------------------------------------------------------
  // Categories per city.

  /** One row of the per-(location, category) statistics table. */
  datatype StatRow = StatRow(location: string, category: string)

  /** The distinct locations in order of first appearance (the key order of the dictionary). */
  function Cities(stats: seq<StatRow>): seq<string> {
    if stats == [] then []
    else
      var earlier := Cities(stats[..|stats| - 1]);
      var city := stats[|stats| - 1].location;
      if city in earlier then earlier else earlier + [city]
  }

  /** The categories of the rows of one city, in row order. */
  function CategoriesIn(stats: seq<StatRow>, city: string): seq<string> {
    if stats == [] then []
    else
      var last := stats[|stats| - 1];
      CategoriesIn(stats[..|stats| - 1], city) + (if last.location == city then [last.category] else [])
  }

  predicate Distinct(s: seq<string>) {
    forall i, j :: 0 <= i < j < |s| ==> s[i] != s[j]
  }

  /** The keys are exactly the locations that occur, each once. */
  lemma {:induction false} CitiesAreTheLocations(stats: seq<StatRow>)
    ensures Distinct(Cities(stats))
    ensures forall city :: city in Cities(stats) <==> exists i :: 0 <= i < |stats| && stats[i].location == city
  {
    if stats != [] {
      var prefix := stats[..|stats| - 1];
      CitiesAreTheLocations(prefix);
      forall city ensures (exists i :: 0 <= i < |stats| && stats[i].location == city) ==> city in Cities(stats) {
        if exists i :: 0 <= i < |stats| && stats[i].location == city {
          var i :| 0 <= i < |stats| && stats[i].location == city;
          if i < |prefix| {
            assert prefix[i].location == city;
          }
        }
      }
      forall city | city in Cities(stats) ensures exists i :: 0 <= i < |stats| && stats[i].location == city {
        if city in Cities(prefix) {
          var i :| 0 <= i < |prefix| && prefix[i].location == city;
          assert stats[i].location == city;
        } else {
          assert stats[|stats| - 1].location == city;
        }
      }
    }
  }

  /** A city that has not appeared yet has no categories collected. */
  lemma {:induction false} UnseenCityHasNoCategories(stats: seq<StatRow>, city: string)
    requires city !in Cities(stats)
    ensures CategoriesIn(stats, city) == []
  {
    if stats != [] {
      var prefix := stats[..|stats| - 1];
      assert city !in Cities(prefix);
      UnseenCityHasNoCategories(prefix, city);
    }
  }

  /** The total length of the category lists of the given keys. */
  function SumLengths(keys: seq<string>, stats: seq<StatRow>): nat {
    if keys == [] then 0 else |CategoriesIn(stats, keys[0])| + SumLengths(keys[1..], stats)
  }

  lemma {:induction false} SumLengthsAppendKey(keys: seq<string>, city: string, stats: seq<StatRow>)
    ensures SumLengths(keys + [city], stats) == SumLengths(keys, stats) + |CategoriesIn(stats, city)|
  {
    if keys == [] {
      assert [city][1..] == [];
    } else {
      assert (keys + [city])[1..] == keys[1..] + [city];
      SumLengthsAppendKey(keys[1..], city, stats);
    }
  }

  lemma {:induction false} SumLengthsAppendRow(keys: seq<string>, stats: seq<StatRow>, row: StatRow)
    requires Distinct(keys)
    ensures SumLengths(keys, stats + [row]) == SumLengths(keys, stats) + (if row.location in keys then 1 else 0)
  {
    if keys != [] {
      assert (stats + [row])[..|stats + [row]| - 1] == stats;
      assert row.location in keys[1..] ==> row.location != keys[0];
      SumLengthsAppendRow(keys[1..], stats, row);
    }
  }

  /** Every statistics row lands in exactly one category list: the list lengths add up to the row count. */
  lemma {:induction false} CategoryListsCoverRows(stats: seq<StatRow>)
    ensures SumLengths(Cities(stats), stats) == |stats|
  {
    if stats != [] {
      var prefix, row := stats[..|stats| - 1], stats[|stats| - 1];
      assert stats == prefix + [row];
      CategoryListsCoverRows(prefix);
      CitiesAreTheLocations(prefix);
      var keys := Cities(prefix);
      SumLengthsAppendRow(keys, prefix, row);
      if row.location !in keys {
        SumLengthsAppendKey(keys, row.location, stats);
        UnseenCityHasNoCategories(prefix, row.location);
      }
    }
  }

  /** `get_city_categories`: a dictionary from city to its categories, keyed in first-seen order. */
  method CityCategories(stats: seq<StatRow>) returns (keys: seq<string>, cats: map<string, seq<string>>)
    ensures keys == Cities(stats)
    ensures forall city :: city in cats <==> city in keys
    ensures forall city :: city in cats ==> cats[city] == CategoriesIn(stats, city)
  {
    keys, cats := [], map[];
    var i := 0;
    while i < |stats|
      invariant 0 <= i <= |stats|
      invariant keys == Cities(stats[..i])
      invariant forall city :: city in cats <==> city in keys
      invariant forall city :: city in cats ==> cats[city] == CategoriesIn(stats[..i], city)
    {
      var row := stats[i];
      assert stats[..i + 1][..i] == stats[..i];
      if row.location !in cats {
        UnseenCityHasNoCategories(stats[..i], row.location);
        keys := keys + [row.location];
        cats := cats[row.location := []];
      }
      cats := cats[row.location := cats[row.location] + [row.category]];
      i := i + 1;
    }
    assert stats[..i] == stats;
  }

  // ---------------------------------------------------------------------------
  // City labels.

  /** `get_city_label_positions`: aligned lists for the cities that have coordinates, in key order. */
  method CityLabelPositions(coords: map<string, Coord>, keys: seq<string>)
    returns (lats: seq<real>, lons: seq<real>, names: seq<string>)
    requires forall i :: 0 <= i < |keys| ==> keys[i] in coords
    ensures names == Filter(keys, city => city in coords && Located(coords[city]))
    ensures |lats| == |names| && |lons| == |names|
    ensures forall i :: 0 <= i < |names| ==>
      Located(coords[names[i]]) && lats[i] == coords[names[i]].lat.value && lons[i] == coords[names[i]].lon.value
  {
    lats, lons, names := [], [], [];
    var i := 0;
    while i < |keys|
      invariant 0 <= i <= |keys|
      invariant names == Filter(keys[..i], city => city in coords && Located(coords[city]))
      invariant |lats| == |names| && |lons| == |names|
      invariant forall j :: 0 <= j < |names| ==>
        Located(coords[names[j]]) && lats[j] == coords[names[j]].lat.value && lons[j] == coords[names[j]].lon.value
    {
      var city := keys[i];
      assert keys[..i + 1] == keys[..i] + [city];
      FilterAppend(keys[..i], [city], city => city in coords && Located(coords[city]));
      var base := coords[city];
      if base.lat.Some? && base.lon.Some? {
        lats := lats + [base.lat.value];
        lons := lons + [base.lon.value];
        names := names + [city];
      }
      i := i + 1;
    }
    assert keys[..i] == keys;
  }

  // ---------------------------------------------------------------------------
  // Category markers.

  /** A latitude/longitude pair. */
  datatype Point = Point(lat: real, lon: real)

  /** The marker radius the map uses. */
  const MarkerRadius: real := 0.17

  /** The first position of `x` in `s` (`list.index`). */
  function IndexOf(s: seq<string>, x: string): (k: nat)
    requires x in s
    ensures k < |s| && s[k] == x && x !in s[..k]
  {
    if s[0] == x then 0
    else
      assert s == [s[0]] + s[1..];
      IndexOf(s[1..], x) + 1
  }

  /**
   * `calculate_marker_position`. `shift(index, total, radius)` stands for the
   * trigonometric offset `(radius * sin(angle), radius * cos(angle))`; a city
   * with a single category keeps the marker on the base point.
   */
  function MarkerPosition(base: Point, index: nat, total: nat, radius: real, shift: (nat, nat, real) -> Point): (p: Point)
    ensures total == 1 ==> p == base
    ensures total != 1 ==> p == Point(base.lat + shift(index, total, radius).lat, base.lon + shift(index, total, radius).lon)
  {
    if total == 1 then base
    else
      var offset := shift(index, total, radius);
      Point(base.lat + offset.lat, base.lon + offset.lon)
  }

  /** The marker of one statistics row of `category`, or `(None, None)` for a city without coordinates. */
  function MarkerFor(city: string, coords: map<string, Coord>, cats: map<string, seq<string>>, category: string,
                     shift: (nat, nat, real) -> Point): (m: Coord)
    requires city in coords
    requires Located(coords[city]) ==> city in cats && category in cats[city]
    ensures Located(m) <==> Located(coords[city])
    ensures !Located(coords[city]) ==> m == Coord(None, None)
    ensures Located(coords[city]) && |cats[city]| == 1 ==> m == coords[city]
    ensures Located(coords[city]) && |cats[city]| != 1 ==>
      var offset := shift(IndexOf(cats[city], category), |cats[city]|, MarkerRadius);
      m == Coord(Some(coords[city].lat.value + offset.lat), Some(coords[city].lon.value + offset.lon))
  {
    var base := coords[city];
    if base.lat.Some? && base.lon.Some? then
      var p := MarkerPosition(Point(base.lat.value, base.lon.value), IndexOf(cats[city], category), |cats[city]|,
                              MarkerRadius, shift);
      Coord(Some(p.lat), Some(p.lon))
    else Coord(None, None)
  }

  /** `get_category_marker_positions`: one latitude and one longitude per row of the category, `None` where the city has no coordinates. */
  method CategoryMarkerPositions(rowCities: seq<string>, coords: map<string, Coord>, cats: map<string, seq<string>>,
                                 category: string, shift: (nat, nat, real) -> Point)
    returns (lats: seq<Option<real>>, lons: seq<Option<real>>)
    requires forall i :: 0 <= i < |rowCities| ==> rowCities[i] in coords
    requires forall i :: 0 <= i < |rowCities| && Located(coords[rowCities[i]]) ==>
      rowCities[i] in cats && category in cats[rowCities[i]]
    ensures |lats| == |rowCities| && |lons| == |rowCities|
    ensures forall i :: 0 <= i < |rowCities| ==>
      Coord(lats[i], lons[i]) == MarkerFor(rowCities[i], coords, cats, category, shift)
  {
    lats, lons := [], [];
    var i := 0;
    while i < |rowCities|
      invariant 0 <= i <= |rowCities|
      invariant |lats| == i && |lons| == i
      invariant forall j :: 0 <= j < i ==> Coord(lats[j], lons[j]) == MarkerFor(rowCities[j], coords, cats, category, shift)
    {
      var city := rowCities[i];
      var base := coords[city];
      if base.lat.Some? && base.lon.Some? {
        var count := |cats[city]|;
        var index := IndexOf(cats[city], category);
        var p := MarkerPosition(Point(base.lat.value, base.lon.value), index, count, MarkerRadius, shift);
        lats := lats + [Some(p.lat)];
        lons := lons + [Some(p.lon)];
      } else {
        lats := lats + [None];
        lons := lons + [None];
      }
      i := i + 1;
    }
  }

  /** The categories gathered by `CityCategories` always satisfy the lookups the marker placement makes. */
  lemma MarkerLookupsSucceed(stats: seq<StatRow>, i: nat)
    requires i < |stats|
    ensures stats[i].location in Cities(stats)
    ensures stats[i].category in CategoriesIn(stats, stats[i].location)
  {
    CitiesAreTheLocations(stats);
    RowCategoryCollected(stats, i);
  }

  lemma {:induction false} RowCategoryCollected(stats: seq<StatRow>, i: nat)
    requires i < |stats|
    ensures stats[i].category in CategoriesIn(stats, stats[i].location)
  {
    var prefix := stats[..|stats| - 1];
    if i < |prefix| {
      assert prefix[i] == stats[i];
      RowCategoryCollected(prefix, i);
    }
  }
}
