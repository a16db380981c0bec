/**
 * The key-influencers tab: the steps around the linear regression that ranks
 * how strongly each feature drives a target column. Rows with a missing
 * feature or target are dropped, the regression is fitted (an abstract input
 * here), and the absolute coefficients are scaled to percentages.
 */
module Influence {
  import opened Frames

  /** The three feature/target set-ups the tab uses. */
  datatype Setup = Setup(features: seq<string>, target: string)

  const RevenueDrivers := Setup(["MarketingSpend", "CustomerFootfall", "ProductVariety", "StoreSize", "StoreAge",
                                 "EmployeeEfficiency", "CompetitorDistance", "PromotionsCount", "EconomicIndicator"],
                                "MonthlySalesRevenue")
  const EfficiencyDrivers := Setup(["CustomerFootfall", "ProductVariety", "StoreSize", "StoreAge"], "EmployeeEfficiency")
  const FootfallDrivers := Setup(["MarketingSpend", "PromotionsCount", "StoreSize", "ProductVariety", "StoreAge",
                                  "CompetitorDistance", "EconomicIndicator"],
                                 "CustomerFootfall")

  /** No NaN/None in any of the given columns (text counts as present, as in pandas). */
  predicate Complete(row: Row, cols: seq<string>) {
    forall i :: 0 <= i < |cols| ==> Cell(row, cols[i]) != Missing
  }

  /** `df.dropna(subset=features + [target])` */
  function ListwiseDelete(rows: seq<Row>, features: seq<string>, target: string): (kept: seq<Row>)
    ensures forall i :: 0 <= i < |kept| ==> kept[i] in rows && Complete(kept[i], features + [target])
    ensures forall i :: 0 <= i < |rows| && Complete(rows[i], features + [target]) ==> rows[i] in kept
  {
    Filter(rows, row => Complete(row, features + [target]))
  }

  /** Deletion keeps input order: it works on each part of the table independently. */
  lemma ListwiseDeleteKeepsOrder(a: seq<Row>, b: seq<Row>, features: seq<string>, target: string)
    ensures ListwiseDelete(a + b, features, target) == ListwiseDelete(a, features, target) + ListwiseDelete(b, features, target)
  {
    FilterAppend(a, b, row => Complete(row, features + [target]));
  }

  /** A table without gaps in the used columns reaches the fit unchanged. */
  lemma CompleteTableKept(rows: seq<Row>, features: seq<string>, target: string)
    requires forall i :: 0 <= i < |rows| ==> Complete(rows[i], features + [target])
    ensures ListwiseDelete(rows, features, target) == rows
  {
    FilterKeepsAll(rows, row => Complete(row, features + [target]));
  }

  // ---------------------------------------------------------------------------
  // From coefficients to percentages (np.abs, sum, conditional scaling).

  function Abs(x: real): real {
    if x < 0.0 then -x else x
  }

  function Sum(s: seq<real>): real {
    if s == [] then 0.0 else s[0] + Sum(s[1..])
  }

  predicate NonNegative(s: seq<real>) {
    forall i :: 0 <= i < |s| ==> s[i] >= 0.0
  }

  /** `np.abs(coefs)` */
  function Importances(coefs: seq<real>): (imps: seq<real>)
    ensures |imps| == |coefs| && NonNegative(imps)
    ensures forall i :: 0 <= i < |coefs| ==> imps[i] == Abs(coefs[i]) && (imps[i] == 0.0 <==> coefs[i] == 0.0)
  {
    seq(|coefs|, i requires 0 <= i < |coefs| => Abs(coefs[i]))
  }

  /** `100 * importances / total` */
  function Scaled(imps: seq<real>, total: real): (r: seq<real>)
    requires total > 0.0
    ensures |r| == |imps|
    ensures forall i :: 0 <= i < |imps| ==> r[i] == 100.0 * imps[i] / total
  {
    if imps == [] then [] else [100.0 * imps[0] / total] + Scaled(imps[1..], total)
  }

  /** Scaled when the total is positive, passed through unchanged otherwise (no division by zero). */
  function Percentages(imps: seq<real>): (p: seq<real>)
    ensures |p| == |imps|
    ensures Sum(imps) > 0.0 ==> forall i :: 0 <= i < |imps| ==> p[i] * Sum(imps) == 100.0 * imps[i]
    ensures Sum(imps) <= 0.0 ==> p == imps
  {
    var total := Sum(imps);
    if total > 0.0 then Scaled(imps, total) else imps
  }

  lemma {:induction false} SumNonNegative(s: seq<real>)
    requires NonNegative(s)
    ensures Sum(s) >= 0.0
  {
    if s != [] {
      SumNonNegative(s[1..]);
    }
  }

  lemma {:induction false} ElementAtMostSum(s: seq<real>, k: nat)
    requires NonNegative(s) && k < |s|
    ensures s[k] <= Sum(s)
  {
    SumNonNegative(s[1..]);
    if k > 0 {
      ElementAtMostSum(s[1..], k - 1);
    }
  }

  lemma {:induction false} ZeroSumMeansAllZero(s: seq<real>)
    requires NonNegative(s) && Sum(s) == 0.0
    ensures forall i :: 0 <= i < |s| ==> s[i] == 0.0
  {
    if s != [] {
      SumNonNegative(s[1..]);
      ZeroSumMeansAllZero(s[1..]);
      assert forall i :: 1 <= i < |s| ==> s[i] == s[1..][i - 1];
    }
  }

  lemma {:induction false} SumScaled(imps: seq<real>, total: real)
    requires total > 0.0
    ensures Sum(Scaled(imps, total)) * total == 100.0 * Sum(imps)
  {
    if imps != [] {
      SumScaled(imps[1..], total);
      var head := 100.0 * imps[0] / total;
      assert head * total == 100.0 * imps[0];
      assert Sum(Scaled(imps, total)) == head + Sum(Scaled(imps[1..], total));
    }
  }

  lemma PercentOfTotal(x: real, total: real)
    requires 0.0 <= x <= total && total > 0.0
    ensures 0.0 <= 100.0 * x / total <= 100.0
  {
    assert x / total <= 1.0;
  }

  lemma Cancel(a: real, b: real, t: real)
    requires t > 0.0 && a * t == b * t
    ensures a == b
  {
    assert (a - b) * t == 0.0;
  }

  /** The percentages of non-negative importances lie in [0, 100] and sum to 100, or are all 0 when the total is 0. */
  lemma PercentagesNormalised(imps: seq<real>)
    requires NonNegative(imps)
    ensures |Percentages(imps)| == |imps|
    ensures forall i :: 0 <= i < |imps| ==> 0.0 <= Percentages(imps)[i] <= 100.0
    ensures Sum(imps) > 0.0 ==> Sum(Percentages(imps)) == 100.0
    ensures Sum(imps) <= 0.0 ==> forall i :: 0 <= i < |imps| ==> Percentages(imps)[i] == 0.0
  {
    var total := Sum(imps);
    SumNonNegative(imps);
    if total > 0.0 {
      var p := Scaled(imps, total);
      SumScaled(imps, total);
      Cancel(Sum(p), 100.0, total);
      forall i | 0 <= i < |imps|
        ensures 0.0 <= p[i] <= 100.0
      {
        ElementAtMostSum(imps, i);
        PercentOfTotal(imps[i], total);
      }
    } else {
      ZeroSumMeansAllZero(imps);
    }
  }

  // ---------------------------------------------------------------------------
  // The whole pipeline, generic over the set-up.

  datatype Influence = Influence(feature: string, percent: real)

  /** `pd.DataFrame({"Feature": features, "Influence": percentages})` */
  function InfluenceTable(features: seq<string>, percents: seq<real>): (r: seq<Influence>)
    requires |percents| == |features|
    ensures |r| == |features|
    ensures forall i :: 0 <= i < |r| ==> r[i].feature == features[i] && r[i].percent == percents[i]
  {
    seq(|features|, i requires 0 <= i < |features| => Influence(features[i], percents[i]))
  }

  function Percents(r: seq<Influence>): seq<real> {
    seq(|r|, i requires 0 <= i < |r| => r[i].percent)
  }

  /**
   * The influence breakdown for one set-up, or None where `fit_transform`
   * raises ValueError because no row survives the deletion. `fit` stands for
   * StandardScaler plus LinearRegression: it maps the cleaned rows to one
   * coefficient per feature.
   */
  function FeatureInfluence(f: Frame, setup: Setup, fit: (seq<Row>, Setup) -> seq<real>): (r: Option<seq<Influence>>)
    requires var kept := ListwiseDelete(f.rows, setup.features, setup.target);
      kept != [] ==> |fit(kept, setup)| == |setup.features|
    ensures r.None? <==> ListwiseDelete(f.rows, setup.features, setup.target) == []
    ensures r.Some? ==> |r.value| == |setup.features|
    ensures r.Some? ==> forall i :: 0 <= i < |r.value| ==> r.value[i].feature == setup.features[i] && 0.0 <= r.value[i].percent <= 100.0
    ensures r.Some? ==> Sum(Percents(r.value)) == 100.0 || forall i :: 0 <= i < |r.value| ==> r.value[i].percent == 0.0
    ensures r.Some? ==>
      var coefs := fit(ListwiseDelete(f.rows, setup.features, setup.target), setup);
      var total := Sum(Importances(coefs));
      && (total > 0.0 ==> forall i :: 0 <= i < |r.value| ==> r.value[i].percent == 100.0 * Abs(coefs[i]) / total)
      && (total <= 0.0 ==> forall i :: 0 <= i < |r.value| ==> r.value[i].percent == Abs(coefs[i]) == 0.0)
  {
    var kept := ListwiseDelete(f.rows, setup.features, setup.target);
    if kept == [] then None
    else
      var coefs := fit(kept, setup);
      var imps := Importances(coefs);
      PercentagesNormalised(imps);
      var r := InfluenceTable(setup.features, Percentages(imps));
      assert Percents(r) == Percentages(imps);
      Some(r)
  }

  /** A consistency check on the constants above: no set-up lists its own target among its features. */
  lemma SetupsWellFormed()
    ensures RevenueDrivers.target !in RevenueDrivers.features && |RevenueDrivers.features| == 9
    ensures EfficiencyDrivers.target !in EfficiencyDrivers.features && |EfficiencyDrivers.features| == 4
    ensures FootfallDrivers.target !in FootfallDrivers.features && |FootfallDrivers.features| == 7
  {
  }
}
