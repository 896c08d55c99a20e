/**
 The "Sales Overview" page of the Amazon sales dashboard: the one-time
 preparation of the sales table (month label per row, sorted list of ship
 states with the first one preselected) and the callback that, for the
 selected state, recomputes the top product categories, the monthly revenue
 trend, the top order statuses and the summary metrics.
 */
module SalesOverview {
  import opened Wrappers
  import opened Text
  import opened Periods
  import opened Grouping

  /** One row of the cleaned sales table, with its date already parsed. */
  datatype Sale = Sale(
    shipState: Option<string>,
    category: Option<string>,
    qty: nat,
    amountEu: real,
    status: string,
    b2b: bool,
    date: Date)

  /** A prepared row: the sale and its month label, the `month` column. */
  datatype Row = Row(sale: Sale, month: string)

  /** What the page holds after loading: the rows, the dropdown's options and its initial value. */
  datatype Dataset = Dataset(rows: seq<Row>, stateOptions: seq<string>, defaultState: Option<string>)

  /** The summary panel: a message, or the metrics table's values. */
  datatype Summary =
    | Notice(message: string)
    | Metrics(totalOrders: nat, totalRevenue: real, averageOrderValue: real, b2bSharePercent: real, topCategory: string)

  /** The four outputs of the callback; an empty figure is an empty series. */
  datatype Dashboard = Dashboard(
    topCategories: seq<Entry>,
    monthlyRevenue: seq<Entry>,
    topStatuses: seq<Entry>,
    summary: Summary)

  const NoSelectionMessage: string := "Please select a state."
  const NoDataMessage: string := "No data for selected state."
  const NotAvailable: string := "N/A"
  const CategoryLimit: nat := 6
  const StatusLimit: nat := 5

  // ---------------------------------------------------------------- loading

  predicate ValidSales(sales: seq<Sale>) {
    forall x :: x in sales ==> ValidDate(x.date)
  }

  /** Every row carries a parsed date and the month label of that date. */
  predicate Prepared(rows: seq<Row>) {
    forall x :: x in rows ==> ValidDate(x.sale.date) && x.month == Period(x.sale.date)
  }

  /** Adds the `month` column: each row's date bucketed into its "YYYY-MM" label. */
  function PrepareRows(sales: seq<Sale>): (rows: seq<Row>)
    requires ValidSales(sales)
    ensures |rows| == |sales| && Prepared(rows)
    ensures forall i :: 0 <= i < |sales| ==> rows[i].sale == sales[i]
  {
    seq(|sales|, i requires 0 <= i < |sales| => Row(sales[i], Period(sales[i].date)))
  }

  predicate HasState(sales: seq<Sale>, s: string) {
    exists i :: 0 <= i < |sales| && sales[i].shipState == Some(s)
  }

  /** `sorted(df['ship_state'].dropna().unique())`: every present state once, ascending. */
  function StateOptions(sales: seq<Sale>): (opts: seq<string>)
    ensures StrictlyAscending(opts)
    ensures forall s :: s in opts <==> HasState(sales, s)
  {
    var column := seq(|sales|, i requires 0 <= i < |sales| => sales[i].shipState);
    assert forall s :: Some(s) in column <==> HasState(sales, s) by {
      forall s ensures Some(s) in column <==> HasState(sales, s) {
        if Some(s) in column {
          var i :| 0 <= i < |column| && column[i] == Some(s);
          assert sales[i].shipState == Some(s);
        }
        if HasState(sales, s) {
          var i :| 0 <= i < |sales| && sales[i].shipState == Some(s);
          assert column[i] == Some(s);
        }
      }
    }
    SortedDistinct(DropMissing(column))
  }

  /** The dropdown's initial value: the first option, or none when there are no options. */
  function DefaultState(opts: seq<string>): (d: Option<string>)
    ensures d.None? <==> opts == []
    ensures d.Some? ==> d.value in opts
    ensures d.Some? && StrictlyAscending(opts) ==> forall s :: s in opts && s != d.value ==> Less(d.value, s)
  {
    if opts == [] then None else Some(opts[0])
  }

  /** The module-level preparation of the page. */
  function Load(sales: seq<Sale>): (d: Dataset)
    requires ValidSales(sales)
    ensures |d.rows| == |sales| && Prepared(d.rows)
    ensures forall i :: 0 <= i < |sales| ==> d.rows[i].sale == sales[i]
    ensures StrictlyAscending(d.stateOptions)
    ensures forall s :: s in d.stateOptions <==> HasState(sales, s)
    ensures d.defaultState.None? <==> forall i :: 0 <= i < |sales| ==> sales[i].shipState.None?
    ensures d.defaultState.Some? ==> HasState(sales, d.defaultState.value)
    ensures d.defaultState.Some? ==>
      forall s :: HasState(sales, s) && s != d.defaultState.value ==> Less(d.defaultState.value, s)
  {
    var opts := StateOptions(sales);
    assert opts == [] <==> forall i :: 0 <= i < |sales| ==> sales[i].shipState.None? by {
      if opts != [] {
        assert HasState(sales, opts[0]);
      }
      if exists i :: 0 <= i < |sales| && sales[i].shipState.Some? {
        var i :| 0 <= i < |sales| && sales[i].shipState.Some?;
        assert HasState(sales, sales[i].shipState.value);
      }
    }
    Dataset(PrepareRows(sales), opts, DefaultState(opts))
  }

  /** `sorted` has one answer: any ascending list of the distinct present states is the option list. */
  lemma StateOptionsUnique(sales: seq<Sale>, opts: seq<string>)
    requires StrictlyAscending(opts)
    requires forall s :: s in opts <==> HasState(sales, s)
    ensures opts == StateOptions(sales)
  {
    AscendingUnique(opts, StateOptions(sales));
  }

  // ------------------------------------------------------------- filtering

  /** Python truthiness of the dropdown value: neither None nor the empty string. */
  predicate Selected(state: Option<string>)
  {
    state.Some? && state.value != ""
  }

  /** `df['ship_state'].str.upper() == state.upper()`; a missing state never matches. */
  predicate Matches(x: Row, state: string) {
    x.sale.shipState.Some? && Upper(x.sale.shipState.value) == Upper(state)
  }

  /** A row matches exactly when its state is present and agrees with the selection letter by letter, up to ASCII case. */
  lemma MatchesIgnoringCase(x: Row, state: string)
    ensures Matches(x, state) <==>
      && x.sale.shipState.Some?
      && |x.sale.shipState.value| == |state|
      && forall i :: 0 <= i < |state| ==> SameIgnoringCase(x.sale.shipState.value[i], state[i])
  {
    if x.sale.shipState.Some? {
      UpperEqual(x.sale.shipState.value, state);
    }
  }

  // The selection measured directly on the table, as references for the subset.

  /** The number of rows of the table that match the selection. */
  function MatchCount(rows: seq<Row>, state: string): nat {
    if rows == [] then 0
    else (if Matches(rows[0], state) then 1 else 0) + MatchCount(rows[1..], state)
  }

  /** The revenue of the rows of the table that match the selection. */
  function MatchedRevenue(rows: seq<Row>, state: string): real {
    if rows == [] then 0.0
    else (if Matches(rows[0], state) then rows[0].sale.amountEu else 0.0) + MatchedRevenue(rows[1..], state)
  }

  /** The number of business-to-business rows of the table that match the selection. */
  function MatchedB2B(rows: seq<Row>, state: string): nat {
    if rows == [] then 0
    else (if Matches(rows[0], state) && rows[0].sale.b2b then 1 else 0) + MatchedB2B(rows[1..], state)
  }

  /** The rows of the selected state, in table order, each as often as it occurs in the table. */
  function Subset(rows: seq<Row>, state: string): (sub: seq<Row>)
    ensures |sub| <= |rows|
    ensures forall x :: x in sub <==> x in rows && Matches(x, state)
    ensures forall x :: multiset(sub)[x] == if Matches(x, state) then multiset(rows)[x] else 0
    ensures |sub| == MatchCount(rows, state)
  {
    if rows == [] then []
    else
      assert rows == [rows[0]] + rows[1..];
      (if Matches(rows[0], state) then [rows[0]] else []) + Subset(rows[1..], state)
  }

  /** One step of the filter: the first row of the table, if it matches, then the subset of the rest. */
  lemma SubsetStep(rows: seq<Row>, state: string)
    requires rows != []
    ensures Matches(rows[0], state) ==> Subset(rows, state) == [rows[0]] + Subset(rows[1..], state)
    ensures !Matches(rows[0], state) ==> Subset(rows, state) == Subset(rows[1..], state)
  {
  }

  /** The subset holds every matching row of the table: its revenue is the table's matching revenue. */
  lemma {:induction false} SubsetRevenue(rows: seq<Row>, state: string)
    ensures Revenue(Subset(rows, state)) == MatchedRevenue(rows, state)
  {
    if rows != [] {
      SubsetRevenue(rows[1..], state);
      SubsetStep(rows, state);
      var rest := Subset(rows[1..], state);
      if Matches(rows[0], state) {
        var sub := [rows[0]] + rest;
        assert sub[0] == rows[0] && sub[1..] == rest;
        assert Revenue(sub) == rows[0].sale.amountEu + Revenue(rest);
      }
    }
  }

  /** The subset's business-to-business orders are the table's matching ones. */
  lemma {:induction false} SubsetB2B(rows: seq<Row>, state: string)
    ensures B2BCount(Subset(rows, state)) == MatchedB2B(rows, state)
  {
    if rows != [] {
      SubsetB2B(rows[1..], state);
      SubsetStep(rows, state);
      var rest := Subset(rows[1..], state);
      var head := if rows[0].sale.b2b then 1 else 0;
      if Matches(rows[0], state) {
        var sub := [rows[0]] + rest;
        assert sub[0] == rows[0] && sub[1..] == rest;
        assert B2BCount(sub) == head + B2BCount(rest);
        assert MatchedB2B(rows, state) == head + MatchedB2B(rows[1..], state);
      } else {
        assert MatchedB2B(rows, state) == MatchedB2B(rows[1..], state);
      }
    }
  }

  // ---------------------------------------------------------- reference sums

  predicate HasCategory(sub: seq<Row>, c: string) {
    exists i :: 0 <= i < |sub| && sub[i].sale.category == Some(c)
  }

  predicate HasMonth(sub: seq<Row>, m: string) {
    exists i :: 0 <= i < |sub| && sub[i].month == m
  }

  predicate HasStatus(sub: seq<Row>, st: string) {
    exists i :: 0 <= i < |sub| && sub[i].sale.status == st
  }

  /** Units sold in category `c`. */
  function QtyTotal(sub: seq<Row>, c: string): nat {
    if sub == [] then 0
    else (if sub[0].sale.category == Some(c) then sub[0].sale.qty else 0) + QtyTotal(sub[1..], c)
  }

  /** Revenue booked in month `m`. */
  function MonthRevenue(sub: seq<Row>, m: string): real {
    if sub == [] then 0.0
    else (if sub[0].month == m then sub[0].sale.amountEu else 0.0) + MonthRevenue(sub[1..], m)
  }

  /** Number of orders with status `st`. */
  function StatusCount(sub: seq<Row>, st: string): nat {
    if sub == [] then 0
    else (if sub[0].sale.status == st then 1 else 0) + StatusCount(sub[1..], st)
  }

  /** Revenue of all the rows. */
  function Revenue(sub: seq<Row>): real {
    if sub == [] then 0.0 else sub[0].sale.amountEu + Revenue(sub[1..])
  }

  /** Number of business-to-business orders. */
  function B2BCount(sub: seq<Row>): (n: nat)
    ensures n <= |sub|
  {
    if sub == [] then 0 else (if sub[0].sale.b2b then 1 else 0) + B2BCount(sub[1..])
  }

  // ------------------------------------------------------------ the columns

  function CategoryColumn(sub: seq<Row>): seq<Weighted> {
    seq(|sub|, i requires 0 <= i < |sub| => Weighted(sub[i].sale.category, sub[i].sale.qty as real))
  }

  function MonthColumn(sub: seq<Row>): seq<Weighted> {
    seq(|sub|, i requires 0 <= i < |sub| => Weighted(Some(sub[i].month), sub[i].sale.amountEu))
  }

  function StatusColumn(sub: seq<Row>): seq<Weighted> {
    seq(|sub|, i requires 0 <= i < |sub| => Weighted(Some(sub[i].sale.status), 1.0))
  }

  lemma {:induction false} CategorySums(sub: seq<Row>, c: string)
    ensures SumFor(CategoryColumn(sub), c) == QtyTotal(sub, c) as real
    ensures HasKey(CategoryColumn(sub), c) <==> HasCategory(sub, c)
  {
    var ws := CategoryColumn(sub);
    if sub != [] {
      assert ws[1..] == CategoryColumn(sub[1..]);
      CategorySums(sub[1..], c);
    }
    if HasCategory(sub, c) {
      var i :| 0 <= i < |sub| && sub[i].sale.category == Some(c);
      assert ws[i].key == Some(c);
    }
    if HasKey(ws, c) {
      var i :| 0 <= i < |ws| && ws[i].key == Some(c);
      assert sub[i].sale.category == Some(c);
    }
  }

  lemma {:induction false} MonthSums(sub: seq<Row>, m: string)
    ensures SumFor(MonthColumn(sub), m) == MonthRevenue(sub, m)
    ensures HasKey(MonthColumn(sub), m) <==> HasMonth(sub, m)
  {
    var ws := MonthColumn(sub);
    if sub != [] {
      assert ws[1..] == MonthColumn(sub[1..]);
      MonthSums(sub[1..], m);
    }
    if HasMonth(sub, m) {
      var i :| 0 <= i < |sub| && sub[i].month == m;
      assert ws[i].key == Some(m);
    }
    if HasKey(ws, m) {
      var i :| 0 <= i < |ws| && ws[i].key == Some(m);
      assert sub[i].month == m;
    }
  }

  lemma {:induction false} MonthColumnTotal(sub: seq<Row>)
    ensures KeyedTotal(MonthColumn(sub)) == Revenue(sub)
  {
    if sub != [] {
      assert MonthColumn(sub)[1..] == MonthColumn(sub[1..]);
      MonthColumnTotal(sub[1..]);
    }
  }

  lemma {:induction false} StatusSums(sub: seq<Row>, st: string)
    ensures SumFor(StatusColumn(sub), st) == StatusCount(sub, st) as real
    ensures HasKey(StatusColumn(sub), st) <==> HasStatus(sub, st)
  {
    var ws := StatusColumn(sub);
    if sub != [] {
      assert ws[1..] == StatusColumn(sub[1..]);
      StatusSums(sub[1..], st);
    }
    if HasStatus(sub, st) {
      var i :| 0 <= i < |sub| && sub[i].sale.status == st;
      assert ws[i].key == Some(st);
    }
    if HasKey(ws, st) {
      var i :| 0 <= i < |ws| && ws[i].key == Some(st);
      assert sub[i].sale.status == st;
    }
  }

  // ------------------------------------------------------------ the views

  /** `subset.groupby('category')['qty'].sum().nlargest(6)`. */
  function TopCategories(sub: seq<Row>): (r: seq<Entry>)
    ensures |r| <= CategoryLimit && RankSorted(r)
  {
    var g := GroupSum(CategoryColumn(sub));
    NLargestRanked(g, CategoryLimit);
    NLargest(g, CategoryLimit)
  }

  /** `subset.groupby('month')['amount_eu'].sum()`. */
  function MonthlyRevenue(sub: seq<Row>): (r: seq<Entry>)
    ensures StrictlyAscending(Keys(r))
    ensures Values(r) == Revenue(sub)
  {
    GroupSumTotal(MonthColumn(sub));
    MonthColumnTotal(sub);
    GroupSum(MonthColumn(sub))
  }

  /** `subset['status'].value_counts().nlargest(5)`. */
  function TopStatuses(sub: seq<Row>): (r: seq<Entry>)
    ensures |r| <= StatusLimit && RankSorted(r)
  {
    var g := GroupSum(StatusColumn(sub));
    NLargestRanked(g, StatusLimit);
    NLargest(g, StatusLimit)
  }

  /** The first category of the ranking, or "N/A" when the ranking is empty. */
  function TopCategoryLabel(cats: seq<Entry>): (top: string)
    ensures top in Keys(cats) || (cats == [] && top == NotAvailable)
  {
    if cats == [] then NotAvailable
    else
      assert Keys(cats)[0] == cats[0].key;
      cats[0].key
  }

  lemma Fraction(k: nat, n: nat)
    requires k <= n && n > 0
    ensures 0.0 <= (k as real) / (n as real) <= 1.0
    ensures ((k as real) / (n as real)) * (n as real) == k as real
  {
  }

  lemma Mean(total: real, n: nat)
    requires n > 0
    ensures (total / (n as real)) * (n as real) == total
  {
  }

  /** The metrics table's values, computed only for a selection that matched rows. */
  function Summarize(sub: seq<Row>, cats: seq<Entry>): (m: Summary)
    requires sub != []
    ensures m.Metrics? && m.totalOrders == |sub| && m.totalRevenue == Revenue(sub)
    ensures m.averageOrderValue * (|sub| as real) == m.totalRevenue
    ensures m.b2bSharePercent * (|sub| as real) == 100.0 * (B2BCount(sub) as real)
    ensures 0.0 <= m.b2bSharePercent <= 100.0
    ensures m.topCategory == TopCategoryLabel(cats)
  {
    var n := |sub| as real;
    var share := B2BCount(sub) as real / n;
    Fraction(B2BCount(sub), |sub|);
    Mean(Revenue(sub), |sub|);
    Metrics(|sub|, Revenue(sub), Revenue(sub) / n, share * 100.0, TopCategoryLabel(cats))
  }

  /** The dashboard for no data: empty figures and a message. */
  function Placeholder(message: string): (d: Dashboard)
  {
    Dashboard([], [], [], Notice(message))
  }

  /**
   The two early exits of the callback show the same empty figures and tell
   the user apart only by their message; every notice the callback returns is
   one of the two.
   */
  lemma EarlyExits(rows: seq<Row>, state: Option<string>)
    ensures Placeholder(NoSelectionMessage) != Placeholder(NoDataMessage)
    ensures Placeholder(NoSelectionMessage).(summary := Notice(NoDataMessage)) == Placeholder(NoDataMessage)
    ensures Update(rows, state).summary.Notice? ==>
      Update(rows, state) in {Placeholder(NoSelectionMessage), Placeholder(NoDataMessage)}
  {
  }

  /** The callback `update_dashboard(state)`. */
  function Update(rows: seq<Row>, state: Option<string>): (d: Dashboard)
    ensures !Selected(state) ==> d == Placeholder(NoSelectionMessage)
    ensures Selected(state) && Subset(rows, state.value) == [] ==> d == Placeholder(NoDataMessage)
    ensures d.summary.Notice? <==> !Selected(state) || Subset(rows, state.value) == []
    ensures d.summary.Metrics? ==>
      var sub := Subset(rows, state.value);
      && d.topCategories == TopCategories(sub)
      && d.monthlyRevenue == MonthlyRevenue(sub)
      && d.topStatuses == TopStatuses(sub)
      && d.summary == Summarize(sub, d.topCategories)
  {
    if !Selected(state) then Placeholder(NoSelectionMessage)
    else
      var sub := Subset(rows, state.value);
      if sub == [] then Placeholder(NoDataMessage)
      else
        var cats := TopCategories(sub);
        Dashboard(cats, MonthlyRevenue(sub), TopStatuses(sub), Summarize(sub, cats))
  }


  // ------------------------------------------------------ what the views state

  /** A selection is compared ignoring ASCII case: two spellings with the same upper case select the same rows. */
  lemma {:induction false} SubsetIgnoresCase(rows: seq<Row>, a: string, b: string)
    requires Upper(a) == Upper(b)
    ensures Subset(rows, a) == Subset(rows, b)
  {
    if rows != [] {
      SubsetIgnoresCase(rows[1..], a, b);
    }
  }

  /** The callback's output depends on the selection only through its upper-case form. */
  lemma UpdateIgnoresCase(rows: seq<Row>, a: string, b: string)
    requires a != "" && b != "" && Upper(a) == Upper(b)
    ensures Update(rows, Some(a)) == Update(rows, Some(b))
  {
    SubsetIgnoresCase(rows, a, b);
  }

  /** A selection shows metrics exactly when some row of the table matches it. */
  lemma UpdateShowsMetrics(rows: seq<Row>, state: string)
    requires state != ""
    ensures Update(rows, Some(state)).summary.Metrics? <==> MatchCount(rows, state) > 0
  {
  }

  /**
   The summary measured on the whole table: the order count, revenue,
   average and B2B share are those of exactly the rows that match.
   */
  lemma SummaryOfMatches(rows: seq<Row>, state: string, cats: seq<Entry>)
    requires MatchCount(rows, state) > 0
    ensures var m := Summarize(Subset(rows, state), cats);
      var n := MatchCount(rows, state) as real;
      && m.totalOrders == MatchCount(rows, state)
      && m.totalRevenue == MatchedRevenue(rows, state)
      && m.averageOrderValue == MatchedRevenue(rows, state) / n
      && m.b2bSharePercent == (MatchedB2B(rows, state) as real) / n * 100.0
  {
    SubsetRevenue(rows, state);
    SubsetB2B(rows, state);
  }

  /** Every option of the dropdown (other than an empty name) selects at least one row. */
  lemma OptionHasData(sales: seq<Sale>, s: string)
    requires ValidSales(sales) && s in StateOptions(sales) && s != ""
    ensures Update(Load(sales).rows, Some(s)).summary.Metrics?
  {
    var rows := Load(sales).rows;
    var i :| 0 <= i < |sales| && sales[i].shipState == Some(s);
    assert rows[i] in rows && Matches(rows[i], s);
    assert rows[i] in Subset(rows, s);
  }

  lemma TopCategoriesSums(sub: seq<Row>)
    ensures var r := TopCategories(sub);
      forall i :: 0 <= i < |r| ==> HasCategory(sub, r[i].key) && r[i].value == QtyTotal(sub, r[i].key) as real
  {
    var r := TopCategories(sub);
    TopGroupsSums(CategoryColumn(sub), CategoryLimit);
    forall i | 0 <= i < |r|
      ensures HasCategory(sub, r[i].key) && r[i].value == QtyTotal(sub, r[i].key) as real
    {
      CategorySums(sub, r[i].key);
    }
  }

  lemma TopCategoriesExcluded(sub: seq<Row>, c: string)
    requires HasCategory(sub, c) && c !in Keys(TopCategories(sub))
    ensures var r := TopCategories(sub);
      |r| == CategoryLimit && RankedBefore(r[CategoryLimit - 1], Entry(c, QtyTotal(sub, c) as real))
  {
    CategorySums(sub, c);
    TopGroupsExcluded(CategoryColumn(sub), CategoryLimit, c);
  }

  lemma TopCategoriesEmpty(sub: seq<Row>)
    ensures TopCategories(sub) == [] <==> forall i :: 0 <= i < |sub| ==> sub[i].sale.category.None?
  {
    var ws := CategoryColumn(sub);
    TopGroupsEmpty(ws, CategoryLimit);
    assert forall i :: 0 <= i < |sub| ==> ws[i].key == sub[i].sale.category;
  }

  lemma TopStatusesSums(sub: seq<Row>)
    ensures var r := TopStatuses(sub);
      forall i :: 0 <= i < |r| ==> HasStatus(sub, r[i].key) && r[i].value == StatusCount(sub, r[i].key) as real
  {
    var r := TopStatuses(sub);
    TopGroupsSums(StatusColumn(sub), StatusLimit);
    forall i | 0 <= i < |r|
      ensures HasStatus(sub, r[i].key) && r[i].value == StatusCount(sub, r[i].key) as real
    {
      StatusSums(sub, r[i].key);
    }
  }

  lemma TopStatusesExcluded(sub: seq<Row>, st: string)
    requires HasStatus(sub, st) && st !in Keys(TopStatuses(sub))
    ensures var r := TopStatuses(sub);
      |r| == StatusLimit && RankedBefore(r[StatusLimit - 1], Entry(st, StatusCount(sub, st) as real))
  {
    StatusSums(sub, st);
    TopGroupsExcluded(StatusColumn(sub), StatusLimit, st);
  }

  lemma TopStatusesEmpty(sub: seq<Row>)
    ensures TopStatuses(sub) == [] <==> sub == []
  {
    var ws := StatusColumn(sub);
    TopGroupsEmpty(ws, StatusLimit);
    if sub != [] {
      assert ws[0].key == Some(sub[0].sale.status);
    }
  }

  /**
   Top categories: at most six, each with the units sold in it, ranked by
   units (equal units in ascending category name), no category left out
   with more units than the last one shown, and none at all exactly when
   every row of the selection lacks a category.
   */
  lemma TopCategoriesRanking(sub: seq<Row>)
    ensures var r := TopCategories(sub);
      && |r| <= CategoryLimit
      && RankSorted(r)
      && (forall i :: 0 <= i < |r| ==> HasCategory(sub, r[i].key) && r[i].value == QtyTotal(sub, r[i].key) as real)
      && (forall i, j :: 0 <= i < j < |r| ==> r[i].key != r[j].key)
      && (forall c :: HasCategory(sub, c) && c !in Keys(r) ==>
            |r| == CategoryLimit && RankedBefore(r[CategoryLimit - 1], Entry(c, QtyTotal(sub, c) as real)))
      && (r == [] <==> forall i :: 0 <= i < |sub| ==> sub[i].sale.category.None?)
  {
    var r := TopCategories(sub);
    TopCategoriesSums(sub);
    forall i, j | 0 <= i < j < |r| ensures r[i].key != r[j].key {
      LessIrreflexive(r[i].key);
    }
    forall c | HasCategory(sub, c) && c !in Keys(r)
      ensures |r| == CategoryLimit && RankedBefore(r[CategoryLimit - 1], Entry(c, QtyTotal(sub, c) as real))
    {
      TopCategoriesExcluded(sub, c);
    }
    TopCategoriesEmpty(sub);
  }


  /**
   Monthly revenue: one entry per month that has rows, in ascending label
   order, each the revenue of its month; together they are the revenue of
   the selection.
   */
  lemma MonthlyRevenueTrend(sub: seq<Row>)
    ensures var t := MonthlyRevenue(sub);
      && StrictlyAscending(Keys(t))
      && (forall m :: m in Keys(t) <==> HasMonth(sub, m))
      && (forall i :: 0 <= i < |t| ==> t[i].value == MonthRevenue(sub, t[i].key))
      && Values(t) == Revenue(sub)
  {
    forall m {
      MonthSums(sub, m);
    }
    GroupSumTotal(MonthColumn(sub));
    MonthColumnTotal(sub);
  }

  /** On prepared rows the trend is chronological: entry `i` precedes entry `j` exactly when its month is earlier. */
  lemma MonthlyRevenueChronological(sub: seq<Row>, i: nat, j: nat, a: nat, b: nat)
    requires Prepared(sub)
    requires i < |MonthlyRevenue(sub)| && j < |MonthlyRevenue(sub)| && a < |sub| && b < |sub|
    requires MonthlyRevenue(sub)[i].key == sub[a].month && MonthlyRevenue(sub)[j].key == sub[b].month
    ensures i < j <==> MonthBefore(sub[a].sale.date, sub[b].sale.date)
  {
    var t := MonthlyRevenue(sub);
    var da, db := sub[a].sale.date, sub[b].sale.date;
    assert sub[a] in sub && sub[b] in sub;
    assert Keys(t)[i] == t[i].key && Keys(t)[j] == t[j].key;
    PeriodOrder(da, db);
    PeriodOrder(db, da);
    LessIrreflexive(sub[a].month);
  }

  /**
   Top statuses: at most five, each with its number of orders, ranked by
   count, no status left out with more orders than the last one shown, and
   at least one whenever the selection has rows.
   */
  lemma TopStatusesRanking(sub: seq<Row>)
    ensures var r := TopStatuses(sub);
      && |r| <= StatusLimit
      && RankSorted(r)
      && (forall i :: 0 <= i < |r| ==> HasStatus(sub, r[i].key) && r[i].value == StatusCount(sub, r[i].key) as real)
      && (forall i, j :: 0 <= i < j < |r| ==> r[i].key != r[j].key)
      && (forall st :: HasStatus(sub, st) && st !in Keys(r) ==>
            |r| == StatusLimit && RankedBefore(r[StatusLimit - 1], Entry(st, StatusCount(sub, st) as real)))
      && (r == [] <==> sub == [])
  {
    var r := TopStatuses(sub);
    TopStatusesSums(sub);
    forall i, j | 0 <= i < j < |r| ensures r[i].key != r[j].key {
      LessIrreflexive(r[i].key);
    }
    forall st | HasStatus(sub, st) && st !in Keys(r)
      ensures |r| == StatusLimit && RankedBefore(r[StatusLimit - 1], Entry(st, StatusCount(sub, st) as real))
    {
      TopStatusesExcluded(sub, st);
    }
    TopStatusesEmpty(sub);
  }


  lemma TopCategoryMax(sub: seq<Row>, c: string)
    requires TopCategories(sub) != [] && HasCategory(sub, c)
    ensures QtyTotal(sub, c) <= QtyTotal(sub, TopCategories(sub)[0].key)
  {
    var cats := TopCategories(sub);
    TopCategoriesRanking(sub);
    var q := QtyTotal(sub, c) as real;
    assert cats[0].value == QtyTotal(sub, cats[0].key) as real;
    if c in Keys(cats) {
      var j :| 0 <= j < |cats| && Keys(cats)[j] == c;
      assert cats[j].value == q;
      RankedHead(cats, j);
    } else {
      assert RankedBefore(cats[CategoryLimit - 1], Entry(c, q));
      RankedHead(cats, CategoryLimit - 1);
    }
  }

  /**
   The top category is the first of the ranking, so no category of the
   selection sold more units; it is "N/A" when the ranking is empty and,
   unless a category is itself called "N/A", only then.
   */
  lemma TopCategoryIsBest(sub: seq<Row>)
    ensures var cats := TopCategories(sub);
      var top := TopCategoryLabel(cats);
      && (cats == [] ==> top == NotAvailable)
      && (cats != [] ==> top == cats[0].key && HasCategory(sub, top))
      && (cats != [] ==> forall c :: HasCategory(sub, c) ==> QtyTotal(sub, c) <= QtyTotal(sub, top))
      && (!HasCategory(sub, NotAvailable) ==>
            (top == NotAvailable <==> forall i :: 0 <= i < |sub| ==> sub[i].sale.category.None?))
  {
    var cats := TopCategories(sub);
    TopCategoriesRanking(sub);
    forall c | cats != [] && HasCategory(sub, c)
      ensures QtyTotal(sub, c) <= QtyTotal(sub, cats[0].key)
    {
      TopCategoryMax(sub, c);
    }
  }


  // A worked example: two New York orders, selected as "ny".

  function ExampleSales(): seq<Sale> {
    [ Sale(Some("NY"), Some("Books"), 2, 20.0, "Shipped", false, Date(2023, 1, 5)),
      Sale(Some("NY"), Some("Toys"), 1, 15.0, "Shipped", true, Date(2023, 2, 10)) ]
  }

  lemma ExamplePeriods()
    ensures Period(Date(2023, 1, 5)) == "2023-01" && Period(Date(2023, 2, 10)) == "2023-02"
  {
    assert Pow10(3) == 1000 && Pow10(2) == 100 && Pow10(1) == 10 && Pow10(0) == 1;
    assert Digits(2023, 4) == "2023";
    assert Digits(1, 2) == "01" && Digits(2, 2) == "02";
  }

  lemma ExampleRows()
    ensures ValidSales(ExampleSales())
    ensures PrepareRows(ExampleSales()) == [Row(ExampleSales()[0], "2023-01"), Row(ExampleSales()[1], "2023-02")]
  {
    ExamplePeriods();
  }

  lemma ExampleSubset(rows: seq<Row>)
    requires |rows| == 2 && rows[0].sale.shipState == Some("NY") && rows[1].sale.shipState == Some("NY")
    ensures Subset(rows, "ny") == rows
  {
    assert Upper("ny")[0] == 'N' && Upper("ny")[1] == 'Y';
    assert Upper("NY")[0] == 'N' && Upper("NY")[1] == 'Y';
    assert Upper("ny") == Upper("NY");
    assert rows[1..][1..] == [];
    assert rows == [rows[0]] + [rows[1]];
  }

  function ExampleRowList(): seq<Row> {
    [Row(ExampleSales()[0], "2023-01"), Row(ExampleSales()[1], "2023-02")]
  }

  /** The facts about the example's rows that the summary depends on. */
  predicate ExampleShape(rows: seq<Row>) {
    && |rows| == 2
    && rows[0].sale.category == Some("Books") && rows[0].sale.qty == 2
    && rows[1].sale.category == Some("Toys") && rows[1].sale.qty == 1
    && rows[0].sale.amountEu == 20.0 && rows[1].sale.amountEu == 15.0
    && !rows[0].sale.b2b && rows[1].sale.b2b
  }

  lemma ExampleQty(rows: seq<Row>)
    requires ExampleShape(rows)
    ensures QtyTotal(rows, "Books") == 2 && QtyTotal(rows, "Toys") == 1
  {
    var tail := rows[1..];
    assert tail[0] == rows[1] && tail[1..] == [];
    assert "Books" != "Toys" by {
      assert "Books"[0] != "Toys"[0];
    }
    assert QtyTotal(tail, "Books") == 0 + QtyTotal(tail[1..], "Books");
    assert QtyTotal(tail, "Toys") == 1 + QtyTotal(tail[1..], "Toys");
    assert QtyTotal(rows, "Books") == 2 + QtyTotal(tail, "Books");
    assert QtyTotal(rows, "Toys") == 0 + QtyTotal(tail, "Toys");
  }

  lemma ExampleSummary(rows: seq<Row>, cats: seq<Entry>)
    requires ExampleShape(rows) && cats != [] && cats[0].key == "Books"
    ensures Summarize(rows, cats) == Metrics(2, 35.0, 17.5, 50.0, "Books")
  {
    var tail := rows[1..];
    assert tail[0] == rows[1] && tail[1..] == [];
    assert Revenue(tail) == 15.0 && B2BCount(tail) == 1;
  }

  /** The example's months and statuses, which the trend and the status ranking depend on. */
  predicate ExampleColumns(rows: seq<Row>) {
    && |rows| == 2
    && rows[0].month == "2023-01" && rows[1].month == "2023-02"
    && rows[0].sale.amountEu == 20.0 && rows[1].sale.amountEu == 15.0
    && rows[0].sale.status == "Shipped" && rows[1].sale.status == "Shipped"
  }

  lemma ExampleCategories(rows: seq<Row>)
    requires ExampleShape(rows)
    ensures TopCategories(rows) == [Entry("Books", 2.0), Entry("Toys", 1.0)]
  {
    var ws := CategoryColumn(rows);
    assert Less("Books", "Toys") by {
      assert "Books"[0] == 'B' && "Toys"[0] == 'T';
    }
    TwoGroups(ws, "Books", "Toys");
    ExampleQty(rows);
    CategorySums(rows, "Books");
    CategorySums(rows, "Toys");
    var g := GroupSum(ws);
    assert g == [Entry("Books", 2.0), Entry("Toys", 1.0)];
    var r := TopCategories(rows);
    assert |r| == 2 && multiset(r) == multiset(g);
    TwoRanked(r, g[0], g[1]);
  }

  lemma ExampleMonthRevenue(rows: seq<Row>)
    requires ExampleColumns(rows)
    ensures MonthRevenue(rows, "2023-01") == 20.0 && MonthRevenue(rows, "2023-02") == 15.0
  {
    var tail := rows[1..];
    assert tail[0] == rows[1] && tail[1..] == [];
    assert "2023-01" != "2023-02" by {
      assert "2023-01"[6] != "2023-02"[6];
    }
    assert MonthRevenue(tail, "2023-01") == 0.0 + MonthRevenue(tail[1..], "2023-01");
    assert MonthRevenue(tail, "2023-02") == 15.0 + MonthRevenue(tail[1..], "2023-02");
  }

  /** The example's month labels sort chronologically, by the label order proved for all dates. */
  lemma ExampleMonthsAscending()
    ensures Less("2023-01", "2023-02")
  {
    ExamplePeriods();
    PeriodOrder(Date(2023, 1, 5), Date(2023, 2, 10));
  }

  lemma ExampleMonthSums(rows: seq<Row>)
    requires ExampleColumns(rows)
    ensures SumFor(MonthColumn(rows), "2023-01") == 20.0 && SumFor(MonthColumn(rows), "2023-02") == 15.0
  {
    ExampleMonthRevenue(rows);
    MonthSums(rows, "2023-01");
    MonthSums(rows, "2023-02");
  }

  lemma ExampleMonthGroups(rows: seq<Row>)
    requires ExampleColumns(rows)
    ensures GroupSum(MonthColumn(rows)) == [Entry("2023-01", 20.0), Entry("2023-02", 15.0)]
  {
    ExampleMonthsAscending();
    TwoGroups(MonthColumn(rows), "2023-01", "2023-02");
    ExampleMonthSums(rows);
  }

  lemma ExampleTrend(rows: seq<Row>)
    requires ExampleColumns(rows)
    ensures MonthlyRevenue(rows) == [Entry("2023-01", 20.0), Entry("2023-02", 15.0)]
  {
    ExampleMonthGroups(rows);
  }

  lemma ExampleStatuses(rows: seq<Row>)
    requires ExampleColumns(rows)
    ensures TopStatuses(rows) == [Entry("Shipped", 2.0)]
  {
    var ws := StatusColumn(rows);
    OneGroup(ws, "Shipped");
    var tail := ws[1..];
    assert tail[0] == ws[1] && tail[1..] == [];
    assert SumFor(ws, "Shipped") == 1.0 + (1.0 + SumFor(tail[1..], "Shipped"));
    var g := GroupSum(ws);
    assert g == [Entry("Shipped", 2.0)];
    var r := TopStatuses(rows);
    assert |r| == 1 && multiset(r) == multiset(g);
    assert r[0] in multiset(g);
  }

  /** The example's dashboard, derived by the verifier from the definitions above. */
  lemma TwoOrdersExample()
    ensures Update(Load(ExampleSales()).rows, Some("ny")) ==
      Dashboard(
        [Entry("Books", 2.0), Entry("Toys", 1.0)],
        [Entry("2023-01", 20.0), Entry("2023-02", 15.0)],
        [Entry("Shipped", 2.0)],
        Metrics(2, 35.0, 17.5, 50.0, "Books"))
  {
    ExampleRows();
    var rows := ExampleRowList();
    assert Load(ExampleSales()).rows == rows;
    ExampleSubset(rows);
    assert ExampleShape(rows) && ExampleColumns(rows);
    ExampleCategories(rows);
    ExampleTrend(rows);
    ExampleStatuses(rows);
    ExampleSummary(rows, TopCategories(rows));
    assert Selected(Some("ny")) && Subset(rows, "ny") != [];
    assert Update(rows, Some("ny")) ==
      Dashboard(TopCategories(rows), MonthlyRevenue(rows), TopStatuses(rows), Summarize(rows, TopCategories(rows)));
  }

}
