# Retail dashboard decision rules in Dafny

This project models the decision logic of a retail-store analytics dashboard.
The dashboard reads one table of per-store metrics (`StoreData`: store id,
location, category, monthly revenue, footfall, marketing spend, promotions and
so on) and shows it on eight tabs. The model covers the parts that decide
things rather than draw them:

- **Comparison** (`comparison.dfy`): comparison of two stores or regions.
  - A dropdown value is classified as a store id or a region.
  - Each selection is resolved to its rows, and the requested metrics are reduced to the valid ones.
  - The result is a verdict per metric, plus the values and labels of the grouped bar chart and the revenue pie.
- **Recommendations** (`recommendations.dfy`): one store against the mean of all other stores, one advice per numeric column.
- **Influence** (`influence.dfy`): the key-influencers pipeline around the regression.
  - Rows with a missing feature or target are deleted before the fit.
  - After the fit, absolute coefficients are turned into percentages.
- **Overview** (`overview.dfy`): the headline totals, the mean footfall, and the top five and bottom five stores by revenue.
- **RegionalMap** (`regional.dfy`): the bookkeeping behind the map.
  - City coordinates.
  - The categories per city, in first-seen order.
  - City label positions and category marker positions.
- **DashboardApp** (`dashboard.dfy`): the application callbacks.
  - Button-to-path navigation.
  - Path-to-page visibility and path-to-button highlighting.
  - The sidebar toggle.
  - The input guard of the comparison callback.

`frames.dfy` (module `Frames`) holds the shared table model:

- a cell is `Num(real)`, `Text(string)` or `Missing` (NaN/None);
- a row maps column names to cells, and an absent name reads as `Missing`;
- `Filter` models boolean indexing, which keeps rows in table order;
- sums, counts and means skip missing cells, as pandas does by default;
- a mean over no present cell is `None`, standing for NaN.

Python's float comparisons are false whenever a NaN is involved. The model keeps this rule (`NumLess`).

The code fixes several behaviours that are easy to get wrong:

- **Ties in the comparison.** A line reads "Higher in First" only when the first mean is strictly greater (`Dashboard/views/vergleichsfunktion_tab.py:98`). Equal means, and means that are NaN, give "Higher in Second".
- **NaN comparison lines.** Every valid metric gets a line, also when one side has no present value and its mean is NaN (`Dashboard/views/vergleichsfunktion_tab.py:95-102`).
- **Recommendation columns.** Recommendations iterate over every numeric column, `StoreID` included, in column order (`Dashboard/views/recommendations_tab.py:45-61`).
- **Recommendation messages.** Every column gives a message, "above average" included. The single "above average everywhere" message appears only when there is no numeric column at all (`Dashboard/views/recommendations_tab.py:63-64`).
- **Influence scaling.** A zero total of absolute coefficients leaves the importances unscaled (`Dashboard/views/key_influencers_tab.py:66`).
- **The bar chart can raise.** It reads the first row of a store selection before checking for emptiness (`Dashboard/views/vergleichsfunktion_tab.py:114-117`). A store id with no rows therefore raises `IndexError` (`LabelIndexError`, `CallbackFailed`) instead of giving "No data available".
- **Rankings list rows without revenue.** `nlargest`/`nsmallest` fill the places that the present revenues leave empty with the rows whose revenue is missing, in table order (`Dashboard/views/overview_tab.py:16-18`). Both lists therefore have min(5, rows) places.

## Model

| member | source | states |
|---|---|---|
| Comparison.Classify | Dashboard/views/vergleichsfunktion_tab.py:59-60 | a selection is a store iff it is an int or all-digit text; an int keeps its value; anything else is the region of that name |
| Comparison.TypedIdSelectsSameStore | Dashboard/views/vergleichsfunktion_tab.py:59-68 | typing a store id as digits selects the same store as choosing the int (via `int(str(n)) == n`) |
| Comparison.Subset | Dashboard/views/vergleichsfunktion_tab.py:62-70 | every kept row is a table row matching the selection (StoreID equal to the id, or StoreLocation equal to the region), and every matching row is kept |
| Comparison.ValidMetrics | Dashboard/views/vergleichsfunktion_tab.py:76 | the valid metrics are requested metrics that are columns, and every requested column is among them |
| Comparison.ValidMetricsAppend | Dashboard/views/vergleichsfunktion_tab.py:76 | metric validation keeps request order: validating a concatenation concatenates the results |
| Comparison.VerdictOf | Dashboard/views/vergleichsfunktion_tab.py:98 | "Higher in First" iff the first mean is strictly greater and neither is NaN |
| Comparison.TextCategory | Dashboard/views/vergleichsfunktion_tab.py:86-93 | a side shows its first row's category exactly when it is a store and the table has a StoreCategory column, "Multiple Categories" otherwise |
| Comparison.CompareText | Dashboard/views/vergleichsfunktion_tab.py:55-102 | "no data" iff a side has no rows (checked before the metrics); "no valid metrics" iff both sides have rows and no metric is a column; otherwise one line per valid metric in order, with both skip-NaN means, the verdict rule and each side's category |
| Comparison.SelfComparisonFavoursSecond | Dashboard/views/vergleichsfunktion_tab.py:95-102 | comparing a selection with itself gives equal means and "Higher in Second" on every line |
| Comparison.UnknownStoreMeansNoData | Dashboard/views/vergleichsfunktion_tab.py:62-73 | a store id with no rows yields "no data" whatever the second side and the metrics |
| Comparison.LabelOf | Dashboard/views/vergleichsfunktion_tab.py:114-130 | a region is labelled by its name; a store by its id, its first row's location and its first row's category, or "Unknown" without a StoreCategory column |
| Comparison.BarChart | Dashboard/views/vergleichsfunktion_tab.py:107-154 | IndexError iff a store side is empty; "no data" iff no label failed and a (region) side is empty; "no valid metrics" iff both sides have rows and no metric is valid; otherwise one trace per valid metric with both labels and both means |
| Comparison.BarNoDataOnlyForRegions | Dashboard/views/vergleichsfunktion_tab.py:114-132 | the bar chart's "no data" figure arises only from an empty region side |
| Comparison.PieChart | Dashboard/views/vergleichsfunktion_tab.py:157-205 | "no data" iff a side is empty; then "revenue not available" iff the revenue column is absent; otherwise the two side labels with the two revenue sums |
| Comparison.RegionSliceAdds | Dashboard/views/vergleichsfunktion_tab.py:181-182 | a region's pie value (the revenue sums at :181-182 and again at :199-200) is additive over any split of the table |
| Frames.CountAndSumOfMissing | Dashboard/views/overview_tab.py:10-13 | `count()` is at most the row count and zero exactly when every cell is missing, and an all-missing `sum()` is 0 |
| Frames.ColumnSumAppend | Dashboard/views/vergleichsfunktion_tab.py:181-182 | `sum()` and `count()` add up over any split of the rows |
| Frames.ColumnMean | Dashboard/views/vergleichsfunktion_tab.py:82-83 | the mean is NaN iff no cell is present, and otherwise times the count equals the sum of the present cells |
| Frames.MeanWithinBounds | Dashboard/views/vergleichsfunktion_tab.py:82-83 | a mean lies between any bounds of the values it averages |
| Frames.Names | Dashboard/views/recommendations_tab.py:52 | one name per column, in column order; `df.columns` and the numeric selection both use it |
| Recommendations.StoreRows | Dashboard/views/recommendations_tab.py:31 | exactly the rows of the selected store are kept |
| Recommendations.OtherRows | Dashboard/views/recommendations_tab.py:42 | exactly the rows of the other stores are kept: the reference population never contains the store itself |
| Recommendations.NumericColumns | Dashboard/views/recommendations_tab.py:45 | the averaged columns are exactly the numeric columns |
| Recommendations.NumericColumnsAppend | Dashboard/views/recommendations_tab.py:45-52 | the averaged columns follow `df.columns`: each part of the column list contributes its numeric columns in order, and one column contributes its name iff it is numeric |
| Recommendations.AdviceOn | Dashboard/views/recommendations_tab.py:54-60 | the advice carries the column, the store's first-row value and the others' mean; "below average" iff the value is strictly less than that mean (equal or NaN is "above") |
| Recommendations.StoreRowsNonEmpty | Dashboard/views/recommendations_tab.py:23-39 | a store that passes the membership check has rows, so the "does not exist" branch is dead |
| Recommendations.OwnRowsDoNotMoveReference | Dashboard/views/recommendations_tab.py:42-48 | adding rows of the selected store leaves the reference population unchanged |
| Recommendations.AdviceList | Dashboard/views/recommendations_tab.py:52-60 | one advice per column, in column order, each the advice for that column |
| Recommendations.Recommend | Dashboard/views/recommendations_tab.py:6-64 | "no data" iff there is no table or it has no rows or no columns (`df.empty`); "select a valid store" iff no or an unknown store is selected; never "does not exist"; otherwise one advice per numeric column in order, and the "above average everywhere" message iff there is no numeric column |
| Influence.ListwiseDelete | Dashboard/views/key_influencers_tab.py:49 | the kept rows are table rows with every feature and the target present, and every such row is kept |
| Influence.ListwiseDeleteKeepsOrder | Dashboard/views/key_influencers_tab.py:49 | deletion keeps input order: it distributes over concatenation |
| Influence.CompleteTableKept | Dashboard/views/key_influencers_tab.py:49 | a table without gaps in the used columns passes unchanged |
| Influence.Importances | Dashboard/views/key_influencers_tab.py:61-62 | one importance per coefficient, each its absolute value, so non-negative and zero exactly for a zero coefficient |
| Influence.Scaled | Dashboard/views/key_influencers_tab.py:66 | each value is 100 times its importance divided by the total |
| Influence.Percentages | Dashboard/views/key_influencers_tab.py:65-66 | with a positive total each percentage times the total is 100 times its importance; with no positive total the importances pass unchanged |
| Influence.SumScaled | Dashboard/views/key_influencers_tab.py:65-66 | the scaled values times the total sum to 100 times the importance sum |
| Influence.ZeroSumMeansAllZero | Dashboard/views/key_influencers_tab.py:66 | non-negative importances with total 0 are all 0 |
| Influence.PercentagesNormalised | Dashboard/views/key_influencers_tab.py:65-66 | every percentage lies in [0, 100]; they sum to 100 when the total is positive and are all 0 otherwise |
| Influence.InfluenceTable | Dashboard/views/key_influencers_tab.py:69-73 | features and percentages are paired one to one, in feature order |
| Influence.SetupsWellFormed | Dashboard/views/key_influencers_tab.py:44-46 | a consistency check on the constants copied from :44-46, :117-118 and :178-180, not a promise of the program: no set-up lists its target among its features, and they have 9, 4 and 7 features |
| Influence.FeatureInfluence | Dashboard/views/key_influencers_tab.py:44-73 | no result (the scaler's ValueError) iff no row survives the deletion; otherwise, for any set-up and fit: one entry per feature in order, each in [0, 100], summing to 100 or all 0; each is 100·abs(coef)/total when the total is positive, the raw zero importance otherwise |
| Overview.Entries | Dashboard/views/overview_tab.py:16 | one ranked candidate per row with a present revenue |
| Overview.Unranked | Dashboard/views/overview_tab.py:16-18 | the rows without revenue make up the rest of the table |
| Overview.EntriesAppend | Dashboard/views/overview_tab.py:16-18 | the candidates keep table order: each part of the table contributes its own, in order |
| Overview.UnrankedAppend | Dashboard/views/overview_tab.py:16-18 | the rows without revenue keep table order in the same way |
| Overview.EntryIsRevenueRow | Dashboard/views/overview_tab.py:16 | a candidate is exactly a row's (StoreID, revenue) pair for a row whose revenue is present |
| Overview.UnrankedIsMissingRow | Dashboard/views/overview_tab.py:16-18 | an unranked store is exactly the StoreID of a row whose revenue is missing |
| Overview.BestIndexIsFirstBest | Dashboard/views/overview_tab.py:16 | the chosen position has the best key and is the first such (keep="first") |
| Overview.Pick | Dashboard/views/overview_tab.py:16-18 | picking n of m entries yields min(n, m) entries |
| Overview.PickMultiset | Dashboard/views/overview_tab.py:16-18 | the picked and the left-out entries together are a permutation of the input |
| Overview.PickFromInput | Dashboard/views/overview_tab.py:16-18 | every picked entry is one of the input entries |
| Overview.PickSorted | Dashboard/views/overview_tab.py:16-18 | the picked entries come in non-increasing key order |
| Overview.PickDominates | Dashboard/views/overview_tab.py:16-18 | every picked key is at least every left-out key |
| Overview.Listing | Dashboard/views/overview_tab.py:16-30 | min(n, candidates + unranked) places numbered 1..k: first the ranked entries with their revenue, then the unranked stores with no revenue |
| Overview.TopPlaces | Dashboard/views/overview_tab.py:16-24 | min(5, rows) places ranked 1..k; exactly the first min(5, candidates) carry a revenue and each shows an input candidate; the rest are the rows without revenue in table order |
| Overview.FlopPlaces | Dashboard/views/overview_tab.py:17-30 | the same for the bottom list |
| Overview.TopPlacesOrdered | Dashboard/views/overview_tab.py:16 | the top list's revenues are non-increasing and each is at least every candidate left out |
| Overview.FlopPlacesOrdered | Dashboard/views/overview_tab.py:17-18 | the bottom list's revenues are non-decreasing and each is at most every candidate left out |
| Overview.OverviewOf | Dashboard/views/overview_tab.py:6-30 | total revenue, marketing spend and promotions are column sums, the footfall is the column mean, and both lists have min(5, rows) places as above |
| RegionalMap.Coordinates | Dashboard/views/regional_comparison_tab.py:9-17 | the four known cities get their fixed coordinates; any other city gets (None, None) |
| RegionalMap.AllCoordinates | Dashboard/views/regional_comparison_tab.py:19-24 | the dictionary has exactly the table's locations as keys, each with its coordinates |
| RegionalMap.CityCategories | Dashboard/views/regional_comparison_tab.py:118-125 | the keys are the locations in first-seen order; each city's list holds its rows' categories in row order |
| RegionalMap.CitiesAreTheLocations | Dashboard/views/regional_comparison_tab.py:118-125 | the keys are distinct and are exactly the locations that occur |
| RegionalMap.CategoryListsCoverRows | Dashboard/views/regional_comparison_tab.py:118-125 | the category list lengths add up to the number of statistics rows |
| RegionalMap.CityLabelPositions | Dashboard/views/regional_comparison_tab.py:128-140 | the names are exactly the keys with both coordinates, in key order, and the three lists are aligned with those coordinates |
| RegionalMap.IndexOf | Dashboard/views/regional_comparison_tab.py:209 | the index is the first position holding the category |
| RegionalMap.MarkerPosition | Dashboard/views/regional_comparison_tab.py:224-238 | a single-category city keeps the marker on its base point; otherwise the base point plus the circular offset |
| RegionalMap.MarkerFor | Dashboard/views/regional_comparison_tab.py:205-220 | a marker is placed iff the city has both coordinates, (None, None) otherwise; on the base point for a single-category city, otherwise the base point plus the offset for the category's first position among the city's categories and their count, at radius 0.17 |
| RegionalMap.CategoryMarkerPositions | Dashboard/views/regional_comparison_tab.py:201-221 | one latitude and one longitude per row of the category, each the row's marker |
| RegionalMap.MarkerLookupsSucceed | Dashboard/views/regional_comparison_tab.py:205-209 | every statistics row's city is a key and its category is in that city's list, so the marker lookups succeed |
| DashboardApp.TabIndex | Dashboard/Dashboard.py:287-303 | each tab has its own slot among the eight |
| DashboardApp.ComponentId | Dashboard/Dashboard.py:386 | the component id is the longest dot-free prefix of the property id |
| DashboardApp.ComponentIdOfProperty | Dashboard/Dashboard.py:386 | "id.property" splits back to id when id has no dot |
| DashboardApp.ButtonTab | Dashboard/Dashboard.py:387-402 | each of the eight button ids names its tab, and nothing else names a tab |
| DashboardApp.Navigate | Dashboard/Dashboard.py:382-403 | the path is always one of the eight; no trigger or an unknown id gives "/overview"; a button's id gives its path |
| DashboardApp.PathTab | Dashboard/Dashboard.py:324-341 | "/", "/overview" and no path name the overview; each tab's path names it; nothing else names a tab |
| DashboardApp.DisplayPage | Dashboard/Dashboard.py:319-342 | eight styles; exactly the page named by the path, or the overview for any other path, is visible |
| DashboardApp.UpdateActiveTab | Dashboard/Dashboard.py:275-305 | eight styles; the button named by the path is active, all others default, none active for an unknown path |
| DashboardApp.ActiveStyleChangesThreeKeys | Dashboard/Dashboard.py:276-285 | the active style has the default's keys and differs exactly in background, colour and weight |
| DashboardApp.ButtonNavigates | Dashboard/Dashboard.py:382-403 | a click on any sidebar button sets the path of that button's page |
| DashboardApp.ButtonRoundTrip | Dashboard/Dashboard.py:275-403 | clicking a button navigates to its path, which shows that button's page and highlights that button |
| DashboardApp.UnknownPathShowsOverviewUnhighlighted | Dashboard/Dashboard.py:288-341 | an unknown path shows the overview page but highlights no button |
| DashboardApp.ToggleSidebar | Dashboard/Dashboard.py:352-367 | no click count gives no update; odd counts give display "none" and margin "20px", even counts "flex" and "220px"; every other key of the (possibly missing) styles is kept |
| DashboardApp.TogglePeriodTwo | Dashboard/Dashboard.py:356 | two more clicks give the same layout |
| DashboardApp.ToggleAlternates | Dashboard/Dashboard.py:356-367 | consecutive click counts alternate between hidden and shown |
| DashboardApp.ToggleIdempotent | Dashboard/Dashboard.py:357-366 | applying the same click count to the toggled styles changes nothing |
| DashboardApp.UpdateComparison | Dashboard/Dashboard.py:248-259 | the prompt iff a selection or the metrics are falsy (None, "", 0, empty list); a failed callback iff the bar chart raises; otherwise the text report, the bar outcome and the pie figure of the comparison |

## Left out

- Layout, plotting and formatting are not modelled. This covers Dash layouts, callback registration, `dcc`/`html` trees, every Plotly figure, colour scales, legends and the text of messages. Messages are tagged values, and numbers are not formatted.
- `StandardScaler` and `LinearRegression` are not modelled. `FeatureInfluence` takes the fit as a function parameter. The only failure it models is the empty input to the scaler, and it models no other behaviour of the fit.
- The trigonometric marker offset (`sin`/`cos`) is not modelled. `MarkerPosition` takes it as the parameter `shift`.
- `CityCategories` takes only the location and category of each statistics row. The group-by that builds those rows, and their count and mean columns, are not modelled.
- Database access is not modelled. `UpdateComparison` takes the table as a parameter, and `Recommend` takes an optional table.
- The model uses no floating point. Numbers are reals, so sums and means carry no rounding error.
- Text cells in a column that is summed or averaged are skipped. In pandas a mean over text raises `TypeError`. A sum raises `TypeError` when text is mixed with numbers or NaN, and concatenates the strings of an all-text column. The comparison's pie chart would then show the concatenated string, and the overview's `:,.2f` formatting of such a sum raises `ValueError`.
- A column missing from the table reads as all-missing. For example, `OverviewOf` gives a sum of 0 where pandas raises `KeyError`. The same holds for the StoreID and StoreLocation filters of the comparison. The comparison's own checks for metric and revenue columns are modelled exactly.
- `Recommend` does not repeat the `col in store_data.columns` test. It always passes, because the store's rows have every column of the table.
- `Comparison.CompareText`: a metric requested twice gives two lines. The source then reads a two-element Series for that metric, and its `:.2f` formatting raises `TypeError`. The dropdown never offers a metric twice.
- Overview rankings: a text revenue counts as missing and is listed after the ranked rows. pandas would raise `TypeError` on a text revenue column. When there are at least as many places as rows, pandas sorts instead of selecting. The model assumes this gives the same order among equal revenues as keep="first".
- `Comparison.Classify` recognises ASCII digits only. Python's `str.isdigit` also accepts other Unicode digits.
- `RegionalMap.CityLabelPositions` and `RegionalMap.CategoryMarkerPositions` require their dictionary lookups to succeed. The source would raise `KeyError` or `ValueError` otherwise.
  - `MarkerLookupsSucceed` covers `city_categories[city]` and `.index(category)`. It shows that each statistics row's city is a key of the category dictionary and that its category is in that city's list.
  - It does not cover `coordinates[city]`. The coordinate keys come from the table's locations (`AllCoordinates`), while the cities come from the group-by, which is not modelled.
  - It also does not show that the cities passed to `CategoryMarkerPositions` are the locations of that category's statistics rows, which the group-by also decides.
- The store dropdown options, the other tabs, the clustering script, the older top-level `Dashboard.py` and the load/transform scripts are not modelled. The other tabs are performance, customer insights and store operations; they only draw charts.
- The `update_dashboard` callback's call to the recommendations section passes no arguments. It is not modelled.
