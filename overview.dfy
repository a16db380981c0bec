/**
 * The overview tab: four headline figures and the five best and five worst
 * stores by monthly revenue, each with its 1-based place.
 */
module Overview {
  import opened Frames

  const CustomerFootfall := "CustomerFootfall"
  const MarketingSpend := "MarketingSpend"
  const PromotionsCount := "PromotionsCount"

  /** The number of places shown in each ranking. */
  const Places: nat := 5

  /** One row of `df[["StoreID", "MonthlySalesRevenue"]]` whose revenue is present. */
  datatype Entry = Entry(store: Value, revenue: real)

  /** The rows `nlargest`/`nsmallest` rank: those with a revenue, in table order. */
  function Entries(rows: seq<Row>): (es: seq<Entry>)
    ensures |es| == ColumnCount(rows, Revenue)
  {
    if rows == [] then []
    else
      var v := Cell(rows[0], Revenue);
      (if v.Num? then [Entry(Cell(rows[0], StoreId), v.x)] else []) + Entries(rows[1..])
  }

  /**
   * The stores of the rows without a revenue, in table order: when fewer
   * revenues than places are present, `nlargest`/`nsmallest` fill the
   * remaining places with these rows, after the ranked ones.
   */
  function Unranked(rows: seq<Row>): (stores: seq<Value>)
    ensures |stores| + ColumnCount(rows, Revenue) == |rows|
  {
    if rows == [] then []
    else (if Cell(rows[0], Revenue).Num? then [] else [Cell(rows[0], StoreId)]) + Unranked(rows[1..])
  }

  /** Each part of the table contributes its own entries, in table order. */
  lemma {:induction false} EntriesAppend(a: seq<Row>, b: seq<Row>)
    ensures Entries(a + b) == Entries(a) + Entries(b)
  {
    if a == [] {
      assert a + b == b;
    } else {
      assert (a + b)[0] == a[0];
      assert (a + b)[1..] == a[1..] + b;
      EntriesAppend(a[1..], b);
    }
  }

  /** Each part of the table contributes its own unranked stores, in table order. */
  lemma {:induction false} UnrankedAppend(a: seq<Row>, b: seq<Row>)
    ensures Unranked(a + b) == Unranked(a) + Unranked(b)
  {
    if a == [] {
      assert a + b == b;
    } else {
      assert (a + b)[0] == a[0];
      assert (a + b)[1..] == a[1..] + b;
      UnrankedAppend(a[1..], b);
    }
  }

  /** Row `j` holds the store and the present revenue of `e`. */
  predicate RevenueRow(rows: seq<Row>, j: int, e: Entry) {
    0 <= j < |rows| && Cell(rows[j], Revenue) == Num(e.revenue) && Cell(rows[j], StoreId) == e.store
  }

  /** Row `j` has no revenue and belongs to `store`. */
  predicate UnrankedRow(rows: seq<Row>, j: int, store: Value) {
    0 <= j < |rows| && !Cell(rows[j], Revenue).Num? && Cell(rows[j], StoreId) == store
  }

  /** An entry is some row's store with its present revenue, and every such row gives one. */
  lemma {:induction false} EntryIsRevenueRow(rows: seq<Row>, e: Entry)
    ensures e in Entries(rows) <==> exists j :: RevenueRow(rows, j, e)
  {
    if rows != [] {
      EntryIsRevenueRow(rows[1..], e);
      var v := Cell(rows[0], Revenue);
      var head := if v.Num? then [Entry(Cell(rows[0], StoreId), v.x)] else [];
      assert Entries(rows) == head + Entries(rows[1..]);
      if e in Entries(rows) {
        if e in head {
          assert RevenueRow(rows, 0, e);
        } else {
          var j :| RevenueRow(rows[1..], j, e);
          assert RevenueRow(rows, j + 1, e);
        }
      }
      if exists j :: RevenueRow(rows, j, e) {
        var j :| RevenueRow(rows, j, e);
        if j == 0 {
          assert e in head;
        } else {
          assert RevenueRow(rows[1..], j - 1, e);
        }
      }
    }
  }

  /** An unranked store is the store of some row without revenue, and every such row gives one. */
  lemma {:induction false} UnrankedIsMissingRow(rows: seq<Row>, store: Value)
    ensures store in Unranked(rows) <==> exists j :: UnrankedRow(rows, j, store)
  {
    if rows != [] {
      UnrankedIsMissingRow(rows[1..], store);
      var head := if Cell(rows[0], Revenue).Num? then [] else [Cell(rows[0], StoreId)];
      assert Unranked(rows) == head + Unranked(rows[1..]);
      if store in Unranked(rows) {
        if store in head {
          assert UnrankedRow(rows, 0, store);
        } else {
          var j :| UnrankedRow(rows[1..], j, store);
          assert UnrankedRow(rows, j + 1, store);
        }
      }
      if exists j :: UnrankedRow(rows, j, store) {
        var j :| UnrankedRow(rows, j, store);
        if j == 0 {
          assert store in head;
        } else {
          assert UnrankedRow(rows[1..], j - 1, store);
        }
      }
    }
  }

  /** The ranking key: the revenue for `nlargest`, its negation for `nsmallest`. */
  function Key(e: Entry, largest: bool): real {
    if largest then e.revenue else -e.revenue
  }

  /** The first position holding the best key (pandas' keep="first" among ties). */
  function BestIndex(es: seq<Entry>, largest: bool): (k: nat)
    requires es != []
    ensures k < |es|
  {
    if |es| == 1 then 0
    else
      var k := BestIndex(es[1..], largest) + 1;
      if Key(es[0], largest) >= Key(es[k], largest) then 0 else k
  }

  /** `BestIndex` holds a best key, and every position before it a strictly worse one. */
  lemma {:induction false} BestIndexIsFirstBest(es: seq<Entry>, largest: bool)
    requires es != []
    ensures forall j :: 0 <= j < |es| ==> Key(es[j], largest) <= Key(es[BestIndex(es, largest)], largest)
    ensures forall j :: 0 <= j < BestIndex(es, largest) ==> Key(es[j], largest) < Key(es[BestIndex(es, largest)], largest)
  {
    if |es| > 1 {
      var tail := es[1..];
      BestIndexIsFirstBest(tail, largest);
      var k := BestIndex(tail, largest) + 1;
      assert es[k] == tail[k - 1];
      forall j | 1 <= j < |es| ensures Key(es[j], largest) <= Key(es[k], largest) {
        assert es[j] == tail[j - 1];
      }
      forall j | 1 <= j < k ensures Key(es[j], largest) < Key(es[k], largest) {
        assert es[j] == tail[j - 1];
      }
    }
  }

  function RemoveAt(es: seq<Entry>, k: nat): seq<Entry>
    requires k < |es|
  {
    es[..k] + es[k + 1..]
  }

  /** `nlargest(n)` (largest) or `nsmallest(n)` (not largest): repeatedly take the first best entry. */
  function Pick(es: seq<Entry>, n: nat, largest: bool): (top: seq<Entry>)
    ensures |top| == if n < |es| then n else |es|
    decreases n
  {
    if n == 0 || es == [] then []
    else
      var k := BestIndex(es, largest);
      [es[k]] + Pick(RemoveAt(es, k), n - 1, largest)
  }

  /** The entries `Pick` leaves out. */
  function Left(es: seq<Entry>, n: nat, largest: bool): seq<Entry>
    decreases n
  {
    if n == 0 || es == [] then es
    else Left(RemoveAt(es, BestIndex(es, largest)), n - 1, largest)
  }

  lemma RemoveAtMultiset(es: seq<Entry>, k: nat)
    requires k < |es|
    ensures multiset{es[k]} + multiset(RemoveAt(es, k)) == multiset(es)
  {
    assert es == es[..k] + [es[k]] + es[k + 1..];
  }

  /** One selection step: some entry is taken, the rest is picked from what remains, and nothing is lost. */
  lemma PickStep(es: seq<Entry>, n: nat, largest: bool) returns (x: Entry, rest: seq<Entry>)
    requires n > 0 && es != []
    ensures multiset(Pick(es, n, largest)) == multiset{x} + multiset(Pick(rest, n - 1, largest))
    ensures multiset(Left(es, n, largest)) == multiset(Left(rest, n - 1, largest))
    ensures multiset{x} + multiset(rest) == multiset(es)
  {
    var k := BestIndex(es, largest);
    x, rest := es[k], RemoveAt(es, k);
    RemoveAtMultiset(es, k);
    assert Pick(es, n, largest) == [x] + Pick(rest, n - 1, largest);
  }

  lemma Regroup(picked: multiset<Entry>, leftOut: multiset<Entry>, first: multiset<Entry>, tail: multiset<Entry>,
                tailLeft: multiset<Entry>, rest: multiset<Entry>, all: multiset<Entry>)
    requires picked == first + tail && leftOut == tailLeft
    requires tail + tailLeft == rest && first + rest == all
    ensures picked + leftOut == all
  {
  }

  lemma NothingPicked(es: seq<Entry>, n: nat, largest: bool)
    requires n == 0 || es == []
    ensures multiset(Pick(es, n, largest)) + multiset(Left(es, n, largest)) == multiset(es)
  {
    assert Pick(es, n, largest) == [] && Left(es, n, largest) == es;
  }

  /** Picking `n` of `es` loses and invents nothing. */
  predicate Splits(es: seq<Entry>, n: nat, largest: bool) {
    multiset(Pick(es, n, largest)) + multiset(Left(es, n, largest)) == multiset(es)
  }

  lemma {:induction false} PickSplits(es: seq<Entry>, n: nat, largest: bool)
    ensures Splits(es, n, largest)
    decreases n
  {
    if n > 0 && es != [] {
      var x, rest := PickStep(es, n, largest);
      PickSplits(rest, n - 1, largest);
      Regroup(multiset(Pick(es, n, largest)), multiset(Left(es, n, largest)), multiset{x},
              multiset(Pick(rest, n - 1, largest)), multiset(Left(rest, n - 1, largest)), multiset(rest), multiset(es));
    } else {
      NothingPicked(es, n, largest);
    }
  }

  /** The picked entries and the left-out ones together are exactly the input. */
  lemma PickMultiset(es: seq<Entry>, n: nat, largest: bool)
    ensures multiset(Pick(es, n, largest)) + multiset(Left(es, n, largest)) == multiset(es)
  {
    PickSplits(es, n, largest);
  }

  /** The picked entries are drawn from the input. */
  lemma PickFromInput(es: seq<Entry>, n: nat, largest: bool)
    ensures forall i :: 0 <= i < |Pick(es, n, largest)| ==> Pick(es, n, largest)[i] in es
  {
    PickMultiset(es, n, largest);
    var top := Pick(es, n, largest);
    assert multiset(top) <= multiset(es);
    forall i | 0 <= i < |top| ensures top[i] in es {
      assert top[i] in multiset(top);
      assert top[i] in multiset(es);
    }
  }

  /** The left-out entries are drawn from the input. */
  lemma LeftFromInput(es: seq<Entry>, n: nat, largest: bool)
    ensures forall j :: 0 <= j < |Left(es, n, largest)| ==> Left(es, n, largest)[j] in es
  {
    PickMultiset(es, n, largest);
    var left := Left(es, n, largest);
    assert multiset(left) <= multiset(es);
    forall j | 0 <= j < |left| ensures left[j] in es {
      assert left[j] in multiset(left);
      assert left[j] in multiset(es);
    }
  }

  /** The entry picked first beats everything that remains after it. */
  lemma FirstPickIsBest(es: seq<Entry>, largest: bool, x: Entry)
    requires es != [] && x in RemoveAt(es, BestIndex(es, largest))
    ensures Key(x, largest) <= Key(es[BestIndex(es, largest)], largest)
  {
    var k := BestIndex(es, largest);
    BestIndexIsFirstBest(es, largest);
    assert es == es[..k] + [es[k]] + es[k + 1..];
    assert x in es;
  }

  /** Every picked key is at least every left-out key. */
  lemma {:induction false} PickDominates(es: seq<Entry>, n: nat, largest: bool)
    ensures forall i, j :: 0 <= i < |Pick(es, n, largest)| && 0 <= j < |Left(es, n, largest)| ==>
      Key(Pick(es, n, largest)[i], largest) >= Key(Left(es, n, largest)[j], largest)
    decreases n
  {
    if n > 0 && es != [] {
      var k := BestIndex(es, largest);
      var rest := RemoveAt(es, k);
      var top, tail, left := Pick(es, n, largest), Pick(rest, n - 1, largest), Left(rest, n - 1, largest);
      PickDominates(rest, n - 1, largest);
      LeftFromInput(rest, n - 1, largest);
      assert top == [es[k]] + tail;
      assert Left(es, n, largest) == left;
      forall i, j | 0 <= i < |top| && 0 <= j < |left| ensures Key(top[i], largest) >= Key(left[j], largest) {
        if i == 0 {
          FirstPickIsBest(es, largest, left[j]);
        } else {
          assert top[i] == tail[i - 1];
        }
      }
    }
  }

  /** The picked entries come in non-increasing key order. */
  lemma {:induction false} PickSorted(es: seq<Entry>, n: nat, largest: bool)
    ensures forall i, j :: 0 <= i < j < |Pick(es, n, largest)| ==>
      Key(Pick(es, n, largest)[i], largest) >= Key(Pick(es, n, largest)[j], largest)
    decreases n
  {
    if n > 0 && es != [] {
      var k := BestIndex(es, largest);
      var rest := RemoveAt(es, k);
      var top, tail := Pick(es, n, largest), Pick(rest, n - 1, largest);
      PickSorted(rest, n - 1, largest);
      PickFromInput(rest, n - 1, largest);
      assert top == [es[k]] + tail;
      forall i, j | 0 <= i < j < |top| ensures Key(top[i], largest) >= Key(top[j], largest) {
        assert top[j] == tail[j - 1];
        if i == 0 {
          FirstPickIsBest(es, largest, top[j]);
        } else {
          assert top[i] == tail[i - 1];
        }
      }
    }
  }

  // ---------------------------------------------------------------------------

  /** A list entry: "{rank}. Platz - Store {id}: ${revenue}", the revenue None for a row shown as "$nan". */
  datatype Place = Place(rank: nat, store: Value, revenue: Option<real>)

  function Min(a: nat, b: nat): nat {
    if a < b then a else b
  }

  /**
   * `reset_index(drop=True)` and `i + 1` over the selected rows: the ranked
   * entries, then the stores without revenue, cut to `n` and numbered from 1.
   */
  function Listing(ranked: seq<Entry>, unranked: seq<Value>, n: nat): (places: seq<Place>)
    ensures |places| == Min(n, |ranked| + |unranked|)
    ensures forall i :: 0 <= i < |places| && i < |ranked| ==> places[i] == Place(i + 1, ranked[i].store, Some(ranked[i].revenue))
    ensures forall i :: |ranked| <= i < |places| ==> places[i] == Place(i + 1, unranked[i - |ranked|], None)
  {
    seq(Min(n, |ranked| + |unranked|), i requires 0 <= i < Min(n, |ranked| + |unranked|) =>
      if i < |ranked| then Place(i + 1, ranked[i].store, Some(ranked[i].revenue))
      else Place(i + 1, unranked[i - |ranked|], None))
  }

  /**
   * With `ranked` holding the first `Places` of `c` ranked candidates, exactly
   * the places before `c` carry a revenue, and the rest are the unranked
   * stores in order.
   */
  lemma ListingLayout(ranked: seq<Entry>, c: nat, unranked: seq<Value>, places: seq<Place>)
    requires |ranked| == Min(Places, c)
    requires places == Listing(ranked, unranked, Places)
    ensures forall i :: 0 <= i < |places| ==> (places[i].revenue.Some? <==> i < c)
    ensures forall i :: 0 <= i < |places| && places[i].revenue.Some? ==>
      Entry(places[i].store, places[i].revenue.value) == ranked[i]
    ensures forall i :: c <= i < |places| ==> places[i].store == unranked[i - c]
  {
    if c < Places {
      assert |ranked| == c;
    } else {
      assert |places| <= Places <= c && |ranked| == Places;
    }
  }

  /** Every place with a revenue shows one of the candidates. */
  lemma ListedFromInput(es: seq<Entry>, unranked: seq<Value>, largest: bool, places: seq<Place>)
    requires places == Listing(Pick(es, Places, largest), unranked, Places)
    ensures forall i :: 0 <= i < |places| && places[i].revenue.Some? ==>
      Entry(places[i].store, places[i].revenue.value) in es
  {
    var top := Pick(es, Places, largest);
    PickFromInput(es, Places, largest);
    forall i | 0 <= i < |places| && places[i].revenue.Some?
      ensures Entry(places[i].store, places[i].revenue.value) in es
    {
      assert i < |top|;
      assert Entry(places[i].store, places[i].revenue.value) == top[i];
    }
  }

  /** The listing of the picked candidates: its length, ranks, and which places come from which list. */
  lemma PickedListing(es: seq<Entry>, unranked: seq<Value>, largest: bool, places: seq<Place>)
    requires places == Listing(Pick(es, Places, largest), unranked, Places)
    ensures |places| == Min(Places, |es| + |unranked|)
    ensures forall i :: 0 <= i < |places| ==> places[i].rank == i + 1
    ensures forall i :: 0 <= i < |places| ==> (places[i].revenue.Some? <==> i < |es|)
    ensures forall i :: 0 <= i < |places| && places[i].revenue.Some? ==>
      Entry(places[i].store, places[i].revenue.value) in es
    ensures forall i :: |es| <= i < |places| ==> places[i].store == unranked[i - |es|]
  {
    ListingLayout(Pick(es, Places, largest), |es|, unranked, places);
    ListedFromInput(es, unranked, largest, places);
  }

  /**
   * `nlargest(5, "MonthlySalesRevenue")` with its places, given the table's
   * ranked candidates `es` and its stores without revenue `unranked`:
   * min(5, rows) places, first ranked candidates, then the unranked stores in
   * table order. `TopPlacesOrdered` gives the revenue order.
   */
  function TopPlaces(es: seq<Entry>, unranked: seq<Value>): (places: seq<Place>)
    ensures |places| == Min(Places, |es| + |unranked|)
    ensures forall i :: 0 <= i < |places| ==> places[i].rank == i + 1
    ensures forall i :: 0 <= i < |places| ==> (places[i].revenue.Some? <==> i < |es|)
    ensures forall i :: 0 <= i < |places| && places[i].revenue.Some? ==>
      Entry(places[i].store, places[i].revenue.value) in es
    ensures forall i :: |es| <= i < |places| ==> places[i].store == unranked[i - |es|]
  {
    var places := Listing(Pick(es, Places, true), unranked, Places);
    PickedListing(es, unranked, true, places);
    places
  }

  /** The same for `nsmallest(5, "MonthlySalesRevenue")`; `FlopPlacesOrdered` gives the revenue order. */
  function FlopPlaces(es: seq<Entry>, unranked: seq<Value>): (places: seq<Place>)
    ensures |places| == Min(Places, |es| + |unranked|)
    ensures forall i :: 0 <= i < |places| ==> places[i].rank == i + 1
    ensures forall i :: 0 <= i < |places| ==> (places[i].revenue.Some? <==> i < |es|)
    ensures forall i :: 0 <= i < |places| && places[i].revenue.Some? ==>
      Entry(places[i].store, places[i].revenue.value) in es
    ensures forall i :: |es| <= i < |places| ==> places[i].store == unranked[i - |es|]
  {
    var places := Listing(Pick(es, Places, false), unranked, Places);
    PickedListing(es, unranked, false, places);
    places
  }

  /** The top list shows descending revenues, each at least every revenue it leaves out. */
  lemma TopPlacesOrdered(es: seq<Entry>, unranked: seq<Value>)
    ensures forall i, j :: 0 <= i < j < |TopPlaces(es, unranked)| && TopPlaces(es, unranked)[j].revenue.Some? ==>
      TopPlaces(es, unranked)[i].revenue.value >= TopPlaces(es, unranked)[j].revenue.value
    ensures forall i, j :: 0 <= i < |TopPlaces(es, unranked)| && TopPlaces(es, unranked)[i].revenue.Some? && 0 <= j < |Left(es, Places, true)| ==>
      TopPlaces(es, unranked)[i].revenue.value >= Left(es, Places, true)[j].revenue
  {
    PickSorted(es, Places, true);
    PickDominates(es, Places, true);
    ListingLayout(Pick(es, Places, true), |es|, unranked, TopPlaces(es, unranked));
  }

  /** The flop list shows ascending revenues, each at most every revenue it leaves out. */
  lemma FlopPlacesOrdered(es: seq<Entry>, unranked: seq<Value>)
    ensures forall i, j :: 0 <= i < j < |FlopPlaces(es, unranked)| && FlopPlaces(es, unranked)[j].revenue.Some? ==>
      FlopPlaces(es, unranked)[i].revenue.value <= FlopPlaces(es, unranked)[j].revenue.value
    ensures forall i, j :: 0 <= i < |FlopPlaces(es, unranked)| && FlopPlaces(es, unranked)[i].revenue.Some? && 0 <= j < |Left(es, Places, false)| ==>
      FlopPlaces(es, unranked)[i].revenue.value <= Left(es, Places, false)[j].revenue
  {
    PickSorted(es, Places, false);
    PickDominates(es, Places, false);
    ListingLayout(Pick(es, Places, false), |es|, unranked, FlopPlaces(es, unranked));
  }

  datatype Summary = Summary(totalRevenue: real, averageFootfall: Option<real>, totalMarketingSpend: real,
                             totalPromotions: real, top: seq<Place>, flop: seq<Place>)

  function OverviewOf(f: Frame): (s: Summary)
    ensures s.totalRevenue == ColumnSum(f.rows, Revenue)
    ensures s.averageFootfall == ColumnMean(f.rows, CustomerFootfall)
    ensures s.totalMarketingSpend == ColumnSum(f.rows, MarketingSpend)
    ensures s.totalPromotions == ColumnSum(f.rows, PromotionsCount)
    ensures |s.top| == |s.flop| == Min(Places, |f.rows|)
    ensures s.top == TopPlaces(Entries(f.rows), Unranked(f.rows)) && s.flop == FlopPlaces(Entries(f.rows), Unranked(f.rows))
  {
    var es, unranked := Entries(f.rows), Unranked(f.rows);
    Summary(ColumnSum(f.rows, Revenue), ColumnMean(f.rows, CustomerFootfall), ColumnSum(f.rows, MarketingSpend),
            ColumnSum(f.rows, PromotionsCount), TopPlaces(es, unranked), FlopPlaces(es, unranked))
  }
}
