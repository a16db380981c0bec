/**
 * The in-memory table every view of the dashboard works on: a pandas
 * DataFrame read with "SELECT * FROM StoreData", idealised as a sequence of
 * rows over named columns. Numbers are idealised as reals; NaN/None is
 * `Missing`.
 */
module Frames {

  datatype Option<T> = None | Some(value: T)

  /** One cell of the table. */
  datatype Value = Num(x: real) | Text(s: string) | Missing

  /** A row maps a column name to its cell; a name the row lacks reads as `Missing`. */
  type Row = map<string, Value>

  /** A column and whether pandas gives it a numeric dtype (what `select_dtypes(include=["number"])` keeps). */
  datatype Column = Column(name: string, numeric: bool)

  datatype Frame = Frame(columns: seq<Column>, rows: seq<Row>)

  const StoreId := "StoreID"
  const StoreLocation := "StoreLocation"
  const StoreCategory := "StoreCategory"
  const Revenue := "MonthlySalesRevenue"

  function Cell(row: Row, col: string): Value {
    if col in row then row[col] else Missing
  }

  /** The names of the given columns, in order. */
  function Names(cs: seq<Column>): (names: seq<string>)
    ensures |names| == |cs|
    ensures forall i :: 0 <= i < |cs| ==> names[i] == cs[i].name
  {
    if cs == [] then [] else [cs[0].name] + Names(cs[1..])
  }

  lemma {:induction false} NamesAppend(a: seq<Column>, b: seq<Column>)
    ensures Names(a + b) == Names(a) + Names(b)
  {
    if a == [] {
      assert a + b == b;
    } else {
      assert (a + b)[0] == a[0];
      assert (a + b)[1..] == a[1..] + b;
      NamesAppend(a[1..], b);
    }
  }

  /** `df.columns`, in column order. */
  function ColumnNames(f: Frame): seq<string> {
    Names(f.columns)
  }

  predicate HasColumn(f: Frame, name: string) {
    name in ColumnNames(f)
  }

  /** The cell as a number, or None for NaN (pandas skips it in sums and means). */
  function AsNumber(v: Value): Option<real> {
    if v.Num? then Some(v.x) else None
  }

  /** Python's `a < b` on floats: any comparison with NaN is false. */
  predicate NumLess(a: Option<real>, b: Option<real>) {
    a.Some? && b.Some? && a.value < b.value
  }

  // ---------------------------------------------------------------------------
  // Order-preserving selection: boolean indexing `df[mask]`, list comprehensions
  // with a condition, `dropna`.

  function Filter<T>(s: seq<T>, p: T -> bool): (r: seq<T>)
    ensures |r| <= |s|
    ensures forall i :: 0 <= i < |r| ==> r[i] in s && p(r[i])
    ensures forall i :: 0 <= i < |s| && p(s[i]) ==> s[i] in r
  {
    if s == [] then [] else (if p(s[0]) then [s[0]] else []) + Filter(s[1..], p)
  }

  /** Selection distributes over concatenation: kept elements stay in their input order. */
  lemma {:induction false} FilterAppend<T>(a: seq<T>, b: seq<T>, p: T -> bool)
    ensures Filter(a + b, p) == Filter(a, p) + Filter(b, p)
  {
    if a == [] {
      assert a + b == b;
    } else {
      assert (a + b)[0] == a[0];
      assert (a + b)[1..] == a[1..] + b;
      FilterAppend(a[1..], b, p);
    }
  }

  /** When every element qualifies, nothing is dropped. */
  lemma {:induction false} FilterKeepsAll<T>(s: seq<T>, p: T -> bool)
    requires forall i :: 0 <= i < |s| ==> p(s[i])
    ensures Filter(s, p) == s
  {
    if s != [] {
      FilterKeepsAll(s[1..], p);
    }
  }

  /** When no element qualifies, everything is dropped. */
  lemma {:induction false} FilterDropsAll<T>(s: seq<T>, p: T -> bool)
    requires forall i :: 0 <= i < |s| ==> !p(s[i])
    ensures Filter(s, p) == []
  {
    if s != [] {
      FilterDropsAll(s[1..], p);
    }
  }

  // ---------------------------------------------------------------------------
  // Column aggregates with pandas' default skipna=True.

  /** `rows[col].sum()`: missing cells are skipped; an all-missing column sums to 0. */
  function ColumnSum(rows: seq<Row>, col: string): real {
    if rows == [] then 0.0
    else (match AsNumber(Cell(rows[0], col)) case Some(x) => x case None => 0.0) + ColumnSum(rows[1..], col)
  }

  /** `rows[col].count()`: the number of non-missing cells. */
  function ColumnCount(rows: seq<Row>, col: string): nat {
    if rows == [] then 0
    else (if Cell(rows[0], col).Num? then 1 else 0) + ColumnCount(rows[1..], col)
  }

  /**
   * The count is the number of present cells: at most the row count, zero
   * exactly when every cell is missing, and then the sum is 0.
   */
  lemma {:induction false} CountAndSumOfMissing(rows: seq<Row>, col: string)
    ensures ColumnCount(rows, col) <= |rows|
    ensures ColumnCount(rows, col) == 0 <==> forall i :: 0 <= i < |rows| ==> !Cell(rows[i], col).Num?
    ensures ColumnCount(rows, col) == 0 ==> ColumnSum(rows, col) == 0.0
  {
    if rows != [] {
      CountAndSumOfMissing(rows[1..], col);
      assert forall i :: 1 <= i < |rows| ==> rows[i] == rows[1..][i - 1];
    }
  }

  /** `rows[col].mean(skipna=True)`; None stands for NaN (no non-missing cell). */
  function ColumnMean(rows: seq<Row>, col: string): (m: Option<real>)
    ensures m.None? <==> ColumnCount(rows, col) == 0
    ensures m.Some? ==> m.value * ColumnCount(rows, col) as real == ColumnSum(rows, col)
  {
    var n := ColumnCount(rows, col);
    if n == 0 then None else Some(ColumnSum(rows, col) / n as real)
  }

  lemma {:induction false} ColumnSumAppend(a: seq<Row>, b: seq<Row>, col: string)
    ensures ColumnSum(a + b, col) == ColumnSum(a, col) + ColumnSum(b, col)
    ensures ColumnCount(a + b, col) == ColumnCount(a, col) + ColumnCount(b, col)
  {
    if a == [] {
      assert a + b == b;
    } else {
      assert (a + b)[0] == a[0];
      assert (a + b)[1..] == a[1..] + b;
      ColumnSumAppend(a[1..], b, col);
    }
  }

  /** Bounds on the non-missing cells bound the sum by count times the bound. */
  lemma {:induction false} ColumnSumBounds(rows: seq<Row>, col: string, lo: real, hi: real)
    requires forall i :: 0 <= i < |rows| && Cell(rows[i], col).Num? ==> lo <= Cell(rows[i], col).x <= hi
    ensures lo * ColumnCount(rows, col) as real <= ColumnSum(rows, col) <= hi * ColumnCount(rows, col) as real
  {
    if rows != [] {
      ColumnSumBounds(rows[1..], col, lo, hi);
      var k, c := ColumnCount(rows[1..], col) as real, ColumnCount(rows, col) as real;
      var rest, sum := ColumnSum(rows[1..], col), ColumnSum(rows, col);
      if Cell(rows[0], col).Num? {
        var x := Cell(rows[0], col).x;
        assert lo <= x <= hi;
        assert c == k + 1.0 && sum == x + rest;
        assert lo * c == lo * k + lo && hi * c == hi * k + hi;
      } else {
        assert c == k && sum == rest;
      }
    }
  }

  /** Dividing by a positive count keeps bounds that hold for the count times the bound. */
  lemma DivideBounds(sum: real, n: real, lo: real, hi: real)
    requires n > 0.0 && lo * n <= sum <= hi * n
    ensures lo <= sum / n <= hi
  {
    var m := sum / n;
    assert m * n == sum;
  }

  /** A mean lies between any lower and upper bound of the values it averages. */
  lemma MeanWithinBounds(rows: seq<Row>, col: string, lo: real, hi: real)
    requires forall i :: 0 <= i < |rows| && Cell(rows[i], col).Num? ==> lo <= Cell(rows[i], col).x <= hi
    ensures ColumnMean(rows, col).Some? ==> lo <= ColumnMean(rows, col).value <= hi
  {
    ColumnSumBounds(rows, col, lo, hi);
    var n := ColumnCount(rows, col) as real;
    if n > 0.0 {
      DivideBounds(ColumnSum(rows, col), n, lo, hi);
    }
  }
}
