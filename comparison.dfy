/**
 * The store/region comparison of the "Vergleichsfunktion" tab: two dropdown
 * selections, each a store id or a region (a StoreLocation), are resolved to
 * row subsets and compared metric by metric (a verdict list, a grouped bar
 * chart of means and a revenue pie).
 */
module Comparison {
  import opened Frames

  /** A dropdown value as Dash hands it over: an int (store options) or a string. */
  datatype Selection = IntSel(n: int) | StrSel(s: string)

  /** What a selection resolves to. */
  datatype Target = Store(id: int) | Region(name: string)

  predicate IsDigit(c: char) {
    '0' <= c <= '9'
  }

  /** Python's `str.isdigit()` on ASCII text: non-empty and digits only. */
  predicate IsDigits(s: string) {
    |s| > 0 && forall i :: 0 <= i < |s| ==> IsDigit(s[i])
  }

  /** `int(s)` for a string of decimal digits. */
  function DigitsValue(s: string): nat
    requires forall i :: 0 <= i < |s| ==> IsDigit(s[i])
  {
    if s == [] then 0
    else
      assert IsDigit(s[|s| - 1]);
      DigitsValue(s[..|s| - 1]) * 10 + (s[|s| - 1] as int - '0' as int)
  }

  /** `str(n)` for a non-negative int. */
  function DecimalString(n: nat): (s: string)
    ensures IsDigits(s)
  {
    var d := ['0' + (n % 10) as char];
    if n < 10 then d else DecimalString(n / 10) + d
  }

  lemma {:induction false} DecimalRoundTrip(n: nat)
    ensures DigitsValue(DecimalString(n)) == n
  {
    var s := DecimalString(n);
    assert s[|s| - 1] == '0' + (n % 10) as char;
    if n >= 10 {
      assert s[..|s| - 1] == DecimalString(n / 10);
      DecimalRoundTrip(n / 10);
    } else {
      assert s[..|s| - 1] == [];
    }
  }

  /** A selection is a store iff it is an int or its text is all digits; anything else names a region. */
  function Classify(sel: Selection): (t: Target)
    ensures t.Store? <==> sel.IntSel? || IsDigits(sel.s)
    ensures sel.IntSel? ==> t == Store(sel.n)
    ensures t.Region? ==> t == Region(sel.s)
  {
    match sel
    case IntSel(n) => Store(n)
    case StrSel(s) => if IsDigits(s) then Store(DigitsValue(s)) else Region(s)
  }

  /** Typing a store's id as text selects the same store as picking it as a number. */
  lemma TypedIdSelectsSameStore(n: nat)
    ensures Classify(StrSel(DecimalString(n))) == Classify(IntSel(n))
  {
    DecimalRoundTrip(n);
  }

  /** The row filter of one side: `StoreID == int(sel)` or `StoreLocation == sel`. */
  predicate Matches(row: Row, t: Target) {
    match t
    case Store(id) => Cell(row, StoreId) == Num(id as real)
    case Region(name) => Cell(row, StoreLocation) == Text(name)
  }

  function Subset(f: Frame, t: Target): (rows: seq<Row>)
    ensures forall i :: 0 <= i < |rows| ==> rows[i] in f.rows && Matches(rows[i], t)
    ensures forall i :: 0 <= i < |f.rows| && Matches(f.rows[i], t) ==> f.rows[i] in rows
  {
    Filter(f.rows, row => Matches(row, t))
  }

  /** The requested metrics that are columns of the frame, in request order. */
  function ValidMetrics(f: Frame, metrics: seq<string>): (valid: seq<string>)
    ensures forall i :: 0 <= i < |valid| ==> valid[i] in metrics && HasColumn(f, valid[i])
    ensures forall i :: 0 <= i < |metrics| && HasColumn(f, metrics[i]) ==> metrics[i] in valid
  {
    Filter(metrics, m => HasColumn(f, m))
  }

  /** Requesting more metrics appends their valid ones after the earlier ones. */
  lemma ValidMetricsAppend(f: Frame, a: seq<string>, b: seq<string>)
    ensures ValidMetrics(f, a + b) == ValidMetrics(f, a) + ValidMetrics(f, b)
  {
    FilterAppend(a, b, m => HasColumn(f, m));
  }

  // ---------------------------------------------------------------------------
  // Text verdicts (generate_comparison_metrics).

  datatype Category = CategoryOf(v: Value) | MultipleCategories | UnknownCategory

  datatype Verdict = HigherInFirst | HigherInSecond

  /** One list entry: "metric: mean vs. mean -> verdict (category vs. category)". */
  datatype Line = Line(metric: string, first: Option<real>, second: Option<real>, verdict: Verdict,
                       firstCategory: Category, secondCategory: Category)

  datatype Report = NoDataAvailable | NoValidMetrics | Lines(lines: seq<Line>)

  /** `a > b` on floats, false when either side is NaN: ties and NaN go to the second selection. */
  function VerdictOf(a: Option<real>, b: Option<real>): (v: Verdict)
    ensures v == HigherInFirst <==> NumLess(b, a)
  {
    if a.Some? && b.Some? && a.value > b.value then HigherInFirst else HigherInSecond
  }

  /** The category shown for a side: the first row's category for a store, else "Multiple Categories". */
  function TextCategory(f: Frame, t: Target, rows: seq<Row>): (c: Category)
    requires rows != []
    ensures c != UnknownCategory
    ensures c.CategoryOf? <==> t.Store? && HasColumn(f, StoreCategory)
    ensures c.CategoryOf? ==> c.v == Cell(rows[0], StoreCategory)
  {
    if t.Store? && HasColumn(f, StoreCategory) then CategoryOf(Cell(rows[0], StoreCategory)) else MultipleCategories
  }

  function CompareText(f: Frame, first: Selection, second: Selection, metrics: seq<string>): (r: Report)
    ensures r.NoDataAvailable? <==> Subset(f, Classify(first)) == [] || Subset(f, Classify(second)) == []
    ensures r.NoValidMetrics? <==>
      Subset(f, Classify(first)) != [] && Subset(f, Classify(second)) != [] && ValidMetrics(f, metrics) == []
    ensures r.Lines? ==>
      var rows1, rows2, valid := Subset(f, Classify(first)), Subset(f, Classify(second)), ValidMetrics(f, metrics);
      && |r.lines| == |valid|
      && forall i :: 0 <= i < |valid| ==>
        && r.lines[i].metric == valid[i]
        && r.lines[i].first == ColumnMean(rows1, valid[i])
        && r.lines[i].second == ColumnMean(rows2, valid[i])
        && (r.lines[i].verdict == HigherInFirst <==> NumLess(r.lines[i].second, r.lines[i].first))
        && r.lines[i].firstCategory == TextCategory(f, Classify(first), rows1)
        && r.lines[i].secondCategory == TextCategory(f, Classify(second), rows2)
  {
    var t1, t2 := Classify(first), Classify(second);
    var rows1, rows2 := Subset(f, t1), Subset(f, t2);
    if rows1 == [] || rows2 == [] then NoDataAvailable
    else
      var valid := ValidMetrics(f, metrics);
      if valid == [] then NoValidMetrics
      else
        var c1, c2 := TextCategory(f, t1, rows1), TextCategory(f, t2, rows2);
        Lines(seq(|valid|, i requires 0 <= i < |valid| =>
          var m1, m2 := ColumnMean(rows1, valid[i]), ColumnMean(rows2, valid[i]);
          Line(valid[i], m1, m2, VerdictOf(m1, m2), c1, c2)))
  }

  /** Comparing a selection with itself gives equal means and, as a tie, "Higher in Second" everywhere. */
  lemma SelfComparisonFavoursSecond(f: Frame, sel: Selection, metrics: seq<string>)
    ensures CompareText(f, sel, sel, metrics).Lines? ==>
      forall i :: 0 <= i < |CompareText(f, sel, sel, metrics).lines| ==>
        var line := CompareText(f, sel, sel, metrics).lines[i];
        line.first == line.second && line.verdict == HigherInSecond
  {
  }

  /** A store id with no rows gives "no data" whatever the other side and the metrics are. */
  lemma UnknownStoreMeansNoData(f: Frame, id: int, second: Selection, metrics: seq<string>)
    requires forall i :: 0 <= i < |f.rows| ==> Cell(f.rows[i], StoreId) != Num(id as real)
    ensures CompareText(f, IntSel(id), second, metrics) == NoDataAvailable
  {
    FilterDropsAll(f.rows, row => Matches(row, Store(id)));
  }

  // ---------------------------------------------------------------------------
  // Bar chart (create_comparison_bar_chart): values and labels only.

  /** "Store id (location, category)" or "Region: name". */
  datatype Label = StoreLabel(id: int, location: Value, category: Category) | RegionLabel(name: string)

  /** One go.Bar trace: x are the two labels, y the two means. */
  datatype Trace = Trace(metric: string, x: seq<Label>, y: seq<Option<real>>)

  /** `LabelIndexError` is the IndexError raised by `iloc[0]` on an empty store subset. */
  datatype BarFigure = LabelIndexError | BarNoData | BarNoValidMetrics | Bars(traces: seq<Trace>)

  /** A side's label; a store label reads the first row, so it needs a non-empty subset. */
  function LabelOf(f: Frame, t: Target, rows: seq<Row>): (l: Label)
    requires t.Store? ==> rows != []
    ensures t.Region? ==> l == RegionLabel(t.name)
    ensures t.Store? ==> l.StoreLabel? && l.id == t.id && l.location == Cell(rows[0], StoreLocation)
    ensures t.Store? ==> (l.category == UnknownCategory <==> !HasColumn(f, StoreCategory))
    ensures t.Store? && HasColumn(f, StoreCategory) ==> l.category == CategoryOf(Cell(rows[0], StoreCategory))
  {
    match t
    case Store(id) =>
      StoreLabel(id, Cell(rows[0], StoreLocation),
                 if HasColumn(f, StoreCategory) then CategoryOf(Cell(rows[0], StoreCategory)) else UnknownCategory)
    case Region(name) => RegionLabel(name)
  }

  /** What the bar chart yields for the given inputs. */
  ghost predicate BarChartOutcome(f: Frame, first: Selection, second: Selection, metrics: seq<string>, fig: BarFigure) {
    var t1, t2 := Classify(first), Classify(second);
    var rows1, rows2, valid := Subset(f, t1), Subset(f, t2), ValidMetrics(f, metrics);
    var labelFails := (t1.Store? && rows1 == []) || (t2.Store? && rows2 == []);
    && (fig.LabelIndexError? <==> labelFails)
    && (fig.BarNoData? <==> !labelFails && (rows1 == [] || rows2 == []))
    && (fig.BarNoValidMetrics? <==> rows1 != [] && rows2 != [] && valid == [])
    && (fig.Bars? ==>
          && |fig.traces| == |valid|
          && forall i :: 0 <= i < |valid| ==>
               fig.traces[i] == Trace(valid[i], [LabelOf(f, t1, rows1), LabelOf(f, t2, rows2)],
                                      [ColumnMean(rows1, valid[i]), ColumnMean(rows2, valid[i])]))
  }

  method BarChart(f: Frame, first: Selection, second: Selection, metrics: seq<string>) returns (fig: BarFigure)
    ensures BarChartOutcome(f, first, second, metrics, fig)
  {
    var t1, t2 := Classify(first), Classify(second);
    var rows1, rows2 := Subset(f, t1), Subset(f, t2);
    // Both labels are built before the empty-subset check.
    if t1.Store? && rows1 == [] {
      return LabelIndexError;
    }
    var label1 := LabelOf(f, t1, rows1);
    if t2.Store? && rows2 == [] {
      return LabelIndexError;
    }
    var label2 := LabelOf(f, t2, rows2);
    if rows1 == [] || rows2 == [] {
      return BarNoData;
    }
    var valid := ValidMetrics(f, metrics);
    if valid == [] {
      return BarNoValidMetrics;
    }
    var traces: seq<Trace> := [];
    var i := 0;
    while i < |valid|
      invariant 0 <= i <= |valid|
      invariant |traces| == i
      invariant forall j :: 0 <= j < i ==>
        traces[j] == Trace(valid[j], [label1, label2], [ColumnMean(rows1, valid[j]), ColumnMean(rows2, valid[j])])
    {
      traces := traces + [Trace(valid[i], [label1, label2], [ColumnMean(rows1, valid[i]), ColumnMean(rows2, valid[i])])];
      i := i + 1;
    }
    fig := Bars(traces);
  }

  /** The "No data available" bar figure is reached only when every empty side is a region. */
  lemma BarNoDataOnlyForRegions(f: Frame, first: Selection, second: Selection, metrics: seq<string>)
    requires BarChartOutcome(f, first, second, metrics, BarNoData)
    ensures Subset(f, Classify(first)) == [] ==> Classify(first).Region?
    ensures Subset(f, Classify(second)) == [] ==> Classify(second).Region?
    ensures Subset(f, Classify(first)) == [] || Subset(f, Classify(second)) == []
  {
  }

  // ---------------------------------------------------------------------------
  // Pie chart (create_comparison_pie_chart): values and labels only.

  datatype PieFigure = PieNoData | RevenueNotAvailable | Pie(labels: seq<Label>, values: seq<real>)

  function PieChart(f: Frame, first: Selection, second: Selection): (r: PieFigure)
    ensures r.PieNoData? <==> Subset(f, Classify(first)) == [] || Subset(f, Classify(second)) == []
    ensures r.RevenueNotAvailable? <==>
      Subset(f, Classify(first)) != [] && Subset(f, Classify(second)) != [] && !HasColumn(f, Revenue)
    ensures r.Pie? ==>
      && r.values == [ColumnSum(Subset(f, Classify(first)), Revenue), ColumnSum(Subset(f, Classify(second)), Revenue)]
      && r.labels == [LabelOf(f, Classify(first), Subset(f, Classify(first))),
                      LabelOf(f, Classify(second), Subset(f, Classify(second)))]
  {
    var t1, t2 := Classify(first), Classify(second);
    var rows1, rows2 := Subset(f, t1), Subset(f, t2);
    if rows1 == [] || rows2 == [] then PieNoData
    else if !HasColumn(f, Revenue) then RevenueNotAvailable
    else Pie([LabelOf(f, t1, rows1), LabelOf(f, t2, rows2)], [ColumnSum(rows1, Revenue), ColumnSum(rows2, Revenue)])
  }

  /** A region's pie slice is the sum of the revenue of the regions' rows, split any way into two parts. */
  lemma RegionSliceAdds(f: Frame, name: string, a: seq<Row>, b: seq<Row>)
    requires f.rows == a + b
    ensures ColumnSum(Subset(f, Region(name)), Revenue)
         == ColumnSum(Filter(a, row => Matches(row, Region(name))), Revenue)
          + ColumnSum(Filter(b, row => Matches(row, Region(name))), Revenue)
  {
    FilterAppend(a, b, row => Matches(row, Region(name)));
    ColumnSumAppend(Filter(a, row => Matches(row, Region(name))), Filter(b, row => Matches(row, Region(name))), Revenue);
  }
}
