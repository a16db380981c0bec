/**
 * The recommendations tab: one store's values against the mean of all other
 * stores, one advice line per numeric column.
 */
module Recommendations {
  import opened Frames

  datatype Advice =
    | BelowAverage(column: string, value: Value, average: Option<real>)
    | AboveAverage(column: string, value: Value, average: Option<real>)
    | AboveAverageEverywhere

  /**
   * `NoData`: "Keine Daten verfügbar."; `SelectValidStore`: the prompt to pick a
   * valid store; `StoreMissing`: the "store does not exist" error; `Advices`: the
   * advice list shown under the dropdown.
   */
  datatype Outcome = NoData | SelectValidStore | StoreMissing(id: int) | Advices(items: seq<Advice>)

  predicate IsStoreRow(row: Row, id: int) {
    Cell(row, StoreId) == Num(id as real)
  }

  /** `selected_store in df["StoreID"].values` */
  predicate HasStore(f: Frame, id: int) {
    exists i :: 0 <= i < |f.rows| && IsStoreRow(f.rows[i], id)
  }

  /** `df[df["StoreID"] == selected_store]` */
  function StoreRows(f: Frame, id: int): (rows: seq<Row>)
    ensures forall i :: 0 <= i < |rows| ==> rows[i] in f.rows && IsStoreRow(rows[i], id)
    ensures forall i :: 0 <= i < |f.rows| && IsStoreRow(f.rows[i], id) ==> f.rows[i] in rows
  {
    Filter(f.rows, row => IsStoreRow(row, id))
  }

  /** `df[df["StoreID"] != selected_store]`: the reference population. */
  function OtherRows(f: Frame, id: int): (rows: seq<Row>)
    ensures forall i :: 0 <= i < |rows| ==> rows[i] in f.rows && !IsStoreRow(rows[i], id)
    ensures forall i :: 0 <= i < |f.rows| && !IsStoreRow(f.rows[i], id) ==> f.rows[i] in rows
  {
    Filter(f.rows, row => !IsStoreRow(row, id))
  }

  predicate IsNumeric(c: Column) {
    c.numeric
  }

  /** The columns `select_dtypes(include=["number"])` keeps, in column order. */
  function NumericColumns(f: Frame): (cols: seq<string>)
    ensures |cols| <= |f.columns|
    ensures forall i :: 0 <= i < |f.columns| && f.columns[i].numeric ==> f.columns[i].name in cols
    ensures forall c :: c in cols ==> exists i :: 0 <= i < |f.columns| && f.columns[i].numeric && f.columns[i].name == c
  {
    var kept := Filter(f.columns, IsNumeric);
    var cols := Names(kept);
    assert forall c :: c in kept ==> c.name in cols by {
      forall c | c in kept ensures c.name in cols {
        var j :| 0 <= j < |kept| && kept[j] == c;
        assert cols[j] == c.name;
      }
    }
    cols
  }

  /**
   * The advice follows `df.columns`: each part of the column list contributes
   * its own numeric columns, in order, and a single column contributes its
   * name exactly when it is numeric.
   */
  lemma NumericColumnsAppend(a: seq<Column>, b: seq<Column>, rows: seq<Row>)
    ensures NumericColumns(Frame(a + b, rows)) == NumericColumns(Frame(a, rows)) + NumericColumns(Frame(b, rows))
    ensures forall c: Column :: NumericColumns(Frame([c], rows)) == if c.numeric then [c.name] else []
  {
    FilterAppend(a, b, IsNumeric);
    NamesAppend(Filter(a, IsNumeric), Filter(b, IsNumeric));
    forall c: Column ensures NumericColumns(Frame([c], rows)) == if c.numeric then [c.name] else [] {
      assert [c][1..] == [];
    }
  }

  /** The advice for one column: "below average" iff the store's value is strictly less than the others' mean. */
  function AdviceOn(col: string, store: Row, others: seq<Row>): (a: Advice)
    ensures !a.AboveAverageEverywhere? && a.column == col
    ensures a.value == Cell(store, col) && a.average == ColumnMean(others, col)
    ensures a.BelowAverage? <==> NumLess(AsNumber(Cell(store, col)), ColumnMean(others, col))
  {
    var v, avg := Cell(store, col), ColumnMean(others, col);
    if NumLess(AsNumber(v), avg) then BelowAverage(col, v, avg) else AboveAverage(col, v, avg)
  }

  /** A store found by the membership check always has rows, so the "does not exist" branch is dead. */
  lemma StoreRowsNonEmpty(f: Frame, id: int)
    requires HasStore(f, id)
    ensures StoreRows(f, id) != []
  {
    var i :| 0 <= i < |f.rows| && IsStoreRow(f.rows[i], id);
    assert f.rows[i] in StoreRows(f, id);
  }

  /** Adding more rows of the selected store leaves its reference population unchanged. */
  lemma {:induction false} OwnRowsDoNotMoveReference(cols: seq<Column>, rows: seq<Row>, extra: seq<Row>, id: int)
    requires forall i :: 0 <= i < |extra| ==> IsStoreRow(extra[i], id)
    ensures OtherRows(Frame(cols, rows + extra), id) == OtherRows(Frame(cols, rows), id)
  {
    FilterAppend(rows, extra, row => !IsStoreRow(row, id));
    FilterDropsAll(extra, row => !IsStoreRow(row, id));
  }

  /** The `for col in avg_values.index` loop: one advice per column, in column order. */
  method AdviceList(cols: seq<string>, store: Row, others: seq<Row>) returns (items: seq<Advice>)
    ensures |items| == |cols|
    ensures forall j :: 0 <= j < |cols| ==> items[j] == AdviceOn(cols[j], store, others)
  {
    items := [];
    var i := 0;
    while i < |cols|
      invariant 0 <= i <= |cols|
      invariant |items| == i
      invariant forall j :: 0 <= j < i ==> items[j] == AdviceOn(cols[j], store, others)
    {
      var col := cols[i];
      var value, average := Cell(store, col), ColumnMean(others, col);
      var advice;
      if NumLess(AsNumber(value), average) {
        advice := BelowAverage(col, value, average);
      } else {
        advice := AboveAverage(col, value, average);
      }
      assert advice == AdviceOn(col, store, others);
      items := items + [advice];
      i := i + 1;
    }
  }

  method Recommend(df: Option<Frame>, selected: Option<int>) returns (r: Outcome)
    ensures r.NoData? <==> df.None? || df.value.rows == [] || df.value.columns == []
    ensures r.SelectValidStore? <==>
      df.Some? && df.value.rows != [] && df.value.columns != [] && (selected.None? || !HasStore(df.value, selected.value))
    ensures !r.StoreMissing?
    ensures r.Advices? ==> df.Some? && selected.Some? && HasStore(df.value, selected.value)
    ensures r.Advices? ==>
      var f, id := df.value, selected.value;
      var cols, store, others := NumericColumns(f), StoreRows(f, id)[0], OtherRows(f, id);
      && (AboveAverageEverywhere in r.items <==> cols == [])
      && (cols == [] ==> r.items == [AboveAverageEverywhere])
      && (cols != [] ==> |r.items| == |cols| && forall i :: 0 <= i < |cols| ==> r.items[i] == AdviceOn(cols[i], store, others))
  {
    // `df.empty`: no rows or no columns
    if df.None? || df.value.rows == [] || df.value.columns == [] {
      return NoData;
    }
    var f := df.value;
    if selected.None? || !HasStore(f, selected.value) {
      return SelectValidStore;
    }
    var id := selected.value;
    var storeData := StoreRows(f, id);
    if storeData == [] {
      StoreRowsNonEmpty(f, id);
      assert false;
      return StoreMissing(id);
    }
    var others := OtherRows(f, id);
    var cols := NumericColumns(f);
    var store := storeData[0];
    // Every numeric column is a column of the store's rows, so the source's
    // `col in store_data.columns` test always passes and is not repeated here.
    var items := AdviceList(cols, store, others);
    if items == [] {
      items := items + [AboveAverageEverywhere];
    }
    r := Advices(items);
  }
}
