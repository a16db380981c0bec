/**
 * The navigation and wiring callbacks of the dashboard application: sidebar
 * buttons set the URL path, the path decides which of the eight pages is
 * visible and which button is highlighted, a toggle button hides or shows the
 * sidebar, and the comparison button runs the store/region comparison.
 */
module DashboardApp {
  import opened Frames
  import opened Comparison

  /** The eight pages, in sidebar order. */
  datatype Tab =
    | OverviewTab | KeyInfluencersTab | ComparisonTab | PerformanceTab
    | CustomerTab | RegionalTab | OperationsTab | RecommendationsTab

  const Tabs: seq<Tab> := [OverviewTab, KeyInfluencersTab, ComparisonTab, PerformanceTab,
                           CustomerTab, RegionalTab, OperationsTab, RecommendationsTab]

  /** The slot of a tab in the eight-element style lists. */
  function TabIndex(t: Tab): (i: nat)
    ensures i < |Tabs| && Tabs[i] == t
  {
    match t
    case OverviewTab => 0
    case KeyInfluencersTab => 1
    case ComparisonTab => 2
    case PerformanceTab => 3
    case CustomerTab => 4
    case RegionalTab => 5
    case OperationsTab => 6
    case RecommendationsTab => 7
  }

  function ButtonId(t: Tab): string {
    match t
    case OverviewTab => "btn-overview"
    case KeyInfluencersTab => "btn-key-influencers"
    case ComparisonTab => "btn-vergleichsfunktion"
    case PerformanceTab => "btn-performance-insights"
    case CustomerTab => "btn-customer-insights"
    case RegionalTab => "btn-regional-comparison"
    case OperationsTab => "btn-store-operations"
    case RecommendationsTab => "btn-recommendations"
  }

  function Path(t: Tab): string {
    match t
    case OverviewTab => "/overview"
    case KeyInfluencersTab => "/key-influencers"
    case ComparisonTab => "/vergleichsfunktion"
    case PerformanceTab => "/performance-insights"
    case CustomerTab => "/customer-insights"
    case RegionalTab => "/regional-comparison"
    case OperationsTab => "/store-operations"
    case RecommendationsTab => "/recommendations"
  }

  const HomePath := "/overview"

  // ---------------------------------------------------------------------------
  // navigate: the clicked button sets the path.

  /** `prop_id.split('.')[0]`: the text before the first dot, or all of it. */
  function ComponentId(propId: string): (id: string)
    ensures '.' !in id
    ensures id <= propId
    ensures |id| < |propId| ==> propId[|id|] == '.'
  {
    if propId == [] || propId[0] == '.' then []
    else [propId[0]] + ComponentId(propId[1..])
  }

  /** The component id of "<id>.<property>" is `id` when `id` has no dot. */
  lemma {:induction false} ComponentIdOfProperty(id: string, property: string)
    requires '.' !in id
    ensures ComponentId(id + "." + property) == id
  {
    if id != [] {
      assert (id + "." + property)[1..] == id[1..] + "." + property;
      ComponentIdOfProperty(id[1..], property);
    }
  }

  /** The component id of the `n_clicks` property of a dot-free id is that id. */
  lemma ClickedComponent(id: string)
    requires '.' !in id
    ensures ComponentId(id + ".n_clicks") == id
  {
    ComponentIdOfProperty(id, "n_clicks");
    assert id + "." + "n_clicks" == id + ".n_clicks";
  }

  /** The button a component id names, if any (the `elif` chain over the eight button ids). */
  function ButtonTab(id: string): (t: Option<Tab>)
    ensures forall tab :: id == ButtonId(tab) ==> t == Some(tab)
    ensures t.Some? ==> id == ButtonId(t.value)
  {
    if id == "btn-overview" then Some(OverviewTab)
    else if id == "btn-key-influencers" then Some(KeyInfluencersTab)
    else if id == "btn-vergleichsfunktion" then Some(ComparisonTab)
    else if id == "btn-performance-insights" then Some(PerformanceTab)
    else if id == "btn-customer-insights" then Some(CustomerTab)
    else if id == "btn-regional-comparison" then Some(RegionalTab)
    else if id == "btn-store-operations" then Some(OperationsTab)
    else if id == "btn-recommendations" then Some(RecommendationsTab)
    else None
  }

  /**
   * The path set by the `navigate` callback; `trigger` is the `prop_id` of the
   * first triggering input, `None` when nothing triggered the callback.
   */
  function Navigate(trigger: Option<string>): (path: string)
    ensures exists t :: path == Path(t)
    ensures trigger.None? ==> path == HomePath
    ensures forall t :: trigger.Some? && ComponentId(trigger.value) == ButtonId(t) ==> path == Path(t)
    ensures trigger.Some? && (forall t :: ComponentId(trigger.value) != ButtonId(t)) ==> path == HomePath
  {
    assert HomePath == Path(OverviewTab);
    if trigger.None? then HomePath
    else
      match ButtonTab(ComponentId(trigger.value))
      case Some(t) => Path(t)
      case None => HomePath
  }

  // ---------------------------------------------------------------------------
  // display_page and update_active_tab: the path picks one slot of eight.

  /** The page a path names: "/", "/overview" and no path name the overview; unknown paths name none. */
  function PathTab(pathname: Option<string>): (t: Option<Tab>)
    ensures pathname.None? || pathname == Some("/") ==> t == Some(OverviewTab)
    ensures forall tab :: pathname == Some(Path(tab)) ==> t == Some(tab)
    ensures t.Some? ==> pathname.None? || pathname == Some("/") || pathname == Some(Path(t.value))
  {
    if pathname.None? then Some(OverviewTab)
    else
      var p := pathname.value;
      if p == "/overview" || p == "/" then Some(OverviewTab)
      else if p == "/key-influencers" then Some(KeyInfluencersTab)
      else if p == "/vergleichsfunktion" then Some(ComparisonTab)
      else if p == "/performance-insights" then Some(PerformanceTab)
      else if p == "/customer-insights" then Some(CustomerTab)
      else if p == "/regional-comparison" then Some(RegionalTab)
      else if p == "/store-operations" then Some(OperationsTab)
      else if p == "/recommendations" then Some(RecommendationsTab)
      else None
  }

  /** The visible page: the named one, the overview for anything else. */
  function PageIndex(pathname: Option<string>): nat {
    match PathTab(pathname)
    case Some(t) => TabIndex(t)
    case None => 0
  }

  /** The highlighted button: the named one, none for an unknown path. */
  function ActiveIndex(pathname: Option<string>): Option<nat> {
    match PathTab(pathname)
    case Some(t) => Some(TabIndex(t))
    case None => None
  }

  /** A component's inline CSS style. */
  type Style = map<string, string>

  const Hidden: Style := map["display" := "none"]
  const Visible: Style := map["display" := "block"]

  const DefaultStyle: Style := map[
    "width" := "100%", "height" := "60px", "fontSize" := "18px", "margin" := "5px 0", "display" := "flex",
    "alignItems" := "center", "borderRadius" := "12px", "backgroundColor" := "#f0f0f0",
    "fontWeight" := "normal", "color" := "black"]

  /** The default style with a blue background, white bold text. */
  const ActiveStyle: Style := DefaultStyle["backgroundColor" := "#007bff"]["color" := "white"]["fontWeight" := "bold"]

  /** The styles of the eight pages: exactly one is visible, the one `PageIndex` names. */
  method DisplayPage(pathname: Option<string>) returns (styles: seq<Style>)
    ensures |styles| == |Tabs|
    ensures styles[PageIndex(pathname)] == Visible
    ensures forall i :: 0 <= i < |styles| && i != PageIndex(pathname) ==> styles[i] == Hidden
  {
    var a := new Style[8](_ => Hidden);
    match PathTab(pathname) {
      case Some(t) => a[TabIndex(t)] := Visible;
      case None => a[0] := Visible;  // unknown paths fall back to the overview
    }
    styles := a[..];
  }

  /** The styles of the eight buttons: the one `ActiveIndex` names is active, all others default. */
  method UpdateActiveTab(pathname: Option<string>) returns (styles: seq<Style>)
    ensures |styles| == |Tabs|
    ensures forall i :: 0 <= i < |styles| ==> styles[i] == if ActiveIndex(pathname) == Some(i) then ActiveStyle else DefaultStyle
  {
    var a := new Style[8](_ => DefaultStyle);
    match PathTab(pathname) {
      case Some(t) => a[TabIndex(t)] := ActiveStyle;
      case None =>
    }
    styles := a[..];
  }

  /** The active style differs from the default one in exactly background, text colour and weight. */
  lemma ActiveStyleChangesThreeKeys()
    ensures ActiveStyle.Keys == DefaultStyle.Keys
    ensures forall k :: k in ActiveStyle && k !in {"backgroundColor", "color", "fontWeight"} ==> ActiveStyle[k] == DefaultStyle[k]
    ensures forall k :: k in {"backgroundColor", "color", "fontWeight"} ==> k in DefaultStyle && ActiveStyle[k] != DefaultStyle[k]
  {
    assert "backgroundColor" in DefaultStyle && "color" in DefaultStyle && "fontWeight" in DefaultStyle;
    assert DefaultStyle["backgroundColor"] == "#f0f0f0";
    assert DefaultStyle["color"] == "black";
    assert DefaultStyle["fontWeight"] == "normal";
  }

  /** Button ids are plain component ids, without a dot. */
  lemma ButtonIdHasNoDot(t: Tab)
    ensures '.' !in ButtonId(t)
  {
    match t
    case OverviewTab =>
    case KeyInfluencersTab =>
    case ComparisonTab =>
    case PerformanceTab =>
    case CustomerTab =>
    case RegionalTab =>
    case OperationsTab =>
    case RecommendationsTab =>
  }

  /** A click on a button navigates to that button's path. */
  lemma ButtonNavigates(t: Tab)
    ensures Navigate(Some(ButtonId(t) + ".n_clicks")) == Path(t)
  {
    var id := ButtonId(t);
    ButtonIdHasNoDot(t);
    ClickedComponent(id);
  }

  /** Clicking a sidebar button shows that button's page and highlights that button. */
  lemma ButtonRoundTrip(t: Tab)
    ensures Navigate(Some(ButtonId(t) + ".n_clicks")) == Path(t)
    ensures PageIndex(Some(Navigate(Some(ButtonId(t) + ".n_clicks")))) == TabIndex(t)
    ensures ActiveIndex(Some(Navigate(Some(ButtonId(t) + ".n_clicks")))) == Some(TabIndex(t))
  {
    ButtonNavigates(t);
  }

  /** Paths the router does not know show the overview page but highlight no button. */
  lemma UnknownPathShowsOverviewUnhighlighted(p: string)
    requires p != "/" && forall t :: p != Path(t)
    ensures PageIndex(Some(p)) == 0 && ActiveIndex(Some(p)).None?
  {
  }

  // ---------------------------------------------------------------------------
  // toggle_sidebar: the click count's parity hides or shows the sidebar.

  datatype SidebarUpdate = NoUpdate | Update(sidebar: Style, content: Style)

  /** `style.copy() if style else {}` */
  function Copied(style: Option<Style>): Style {
    if style.None? then map[] else style.value
  }

  /**
   * An odd click count hides the sidebar and narrows the content margin, an
   * even one shows it again; only the two toggled keys change. No click count
   * means no update (`PreventUpdate`). Python's `n % 2` agrees with Dafny's
   * for the divisor 2, also for negative counts.
   */
  function ToggleSidebar(nClicks: Option<int>, sidebar: Option<Style>, content: Option<Style>): (u: SidebarUpdate)
    ensures u.NoUpdate? <==> nClicks.None?
    ensures u.Update? ==>
      && "display" in u.sidebar && "margin-left" in u.content
      && (nClicks.value % 2 == 1 ==> u.sidebar["display"] == "none" && u.content["margin-left"] == "20px")
      && (nClicks.value % 2 == 0 ==> u.sidebar["display"] == "flex" && u.content["margin-left"] == "220px")
      && (forall k :: k != "display" ==> (k in u.sidebar <==> k in Copied(sidebar)))
      && (forall k :: k != "display" && k in u.sidebar ==> u.sidebar[k] == Copied(sidebar)[k])
      && (forall k :: k != "margin-left" ==> (k in u.content <==> k in Copied(content)))
      && (forall k :: k != "margin-left" && k in u.content ==> u.content[k] == Copied(content)[k])
  {
    if nClicks.None? then NoUpdate
    else if nClicks.value % 2 == 1 then
      Update(Copied(sidebar)["display" := "none"], Copied(content)["margin-left" := "20px"])
    else
      Update(Copied(sidebar)["display" := "flex"], Copied(content)["margin-left" := "220px"])
  }

  /** Two more clicks bring back the same layout. */
  lemma {:induction false} TogglePeriodTwo(n: int, sidebar: Option<Style>, content: Option<Style>)
    ensures ToggleSidebar(Some(n + 2), sidebar, content) == ToggleSidebar(Some(n), sidebar, content)
  {
    assert (n + 2) % 2 == n % 2;
  }

  /** Consecutive clicks alternate between hidden and shown. */
  lemma ToggleAlternates(n: int, sidebar: Option<Style>, content: Option<Style>)
    ensures ToggleSidebar(Some(n), sidebar, content).sidebar["display"]
         != ToggleSidebar(Some(n + 1), sidebar, content).sidebar["display"]
  {
    assert (n + 1) % 2 != n % 2;
  }

  /** Re-applying the same click count to the result changes nothing. */
  lemma ToggleIdempotent(n: int, sidebar: Option<Style>, content: Option<Style>)
    ensures var u := ToggleSidebar(Some(n), sidebar, content);
      ToggleSidebar(Some(n), Some(u.sidebar), Some(u.content)) == u
  {
  }

  // ---------------------------------------------------------------------------
  // update_comparison: the input guard in front of the three comparison views.

  /** `not value` for a dropdown value: no value, the empty string or the int 0. */
  predicate FalsySelection(sel: Option<Selection>) {
    sel.None? || sel == Some(StrSel("")) || sel == Some(IntSel(0))
  }

  /** `not metrics`: no value or an empty list. */
  predicate FalsyMetrics(metrics: Option<seq<string>>) {
    metrics.None? || metrics == Some([])
  }

  /**
   * `SelectionPrompt`: the "please select" text with two empty figures;
   * `CallbackFailed`: the bar chart raised (a store with no rows);
   * `Compared`: the three comparison views.
   */
  datatype ComparisonView = SelectionPrompt | CallbackFailed | Compared(report: Report, bar: BarFigure, pie: PieFigure)

  /** The comparison callback; `df` stands for the table the callback reads from the database. */
  method UpdateComparison(df: Frame, first: Option<Selection>, second: Option<Selection>, metrics: Option<seq<string>>)
    returns (view: ComparisonView)
    ensures view.SelectionPrompt? <==> FalsySelection(first) || FalsySelection(second) || FalsyMetrics(metrics)
    ensures view.CallbackFailed? <==>
      && !(FalsySelection(first) || FalsySelection(second) || FalsyMetrics(metrics))
      && BarChartOutcome(df, first.value, second.value, metrics.value, LabelIndexError)
    ensures view.Compared? ==>
      && first.Some? && second.Some? && metrics.Some?
      && view.report == CompareText(df, first.value, second.value, metrics.value)
      && BarChartOutcome(df, first.value, second.value, metrics.value, view.bar)
      && !view.bar.LabelIndexError?
      && view.pie == PieChart(df, first.value, second.value)
  {
    if FalsySelection(first) || FalsySelection(second) || FalsyMetrics(metrics) {
      return SelectionPrompt;
    }
    var report := CompareText(df, first.value, second.value, metrics.value);
    var bar := BarChart(df, first.value, second.value, metrics.value);
    if bar.LabelIndexError? {
      return CallbackFailed;
    }
    view := Compared(report, bar, PieChart(df, first.value, second.value));
  }
}
