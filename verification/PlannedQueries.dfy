/** What the queries of an answer plan ask for: by which dimension they group, how many rows they
    want, and which groups the database gives them. */
module PlannedQueries {
  import opened Wrappers
  import opened Literals
  import opened Sql
  import opened Planner
  import opened CompilerCorrectness
  import opened Periods
  import opened Payloads
  import opened AnswerPlan
  import opened AnswerMeaning
  import opened TrendOrder

  // ---- Which dimension ----

  /** The first key of the list that is all right. */
  ghost predicate FirstIn(keys: seq<string>, right: string -> bool, key: string) {
    exists i :: 0 <= i < |keys| && right(keys[i]) && keys[i] == key && forall j :: 0 <= j < i ==> !right(keys[j])
  }

  ghost predicate NoneIn(keys: seq<string>, right: string -> bool) { forall k :: k in keys ==> !right(k) }

  /** Those the request names first, then the preferred ones, then the metric's own. */
  ghost predicate Preferred(request: Request, m: Metric, d: AnswerDecision, right: string -> bool, key: string) {
    var named := request.interpretation.dimensions;
    || FirstIn(named, right, key)
    || (NoneIn(named, right) && FirstIn(d.preferredDimensions, right, key))
    || (NoneIn(named, right) && NoneIn(d.preferredDimensions, right) && FirstIn(m.allowedDimensions, right, key))
  }

  /** The key names a time, or its dimension holds dates or timestamps. */
  predicate NamesTime(key: string, catalog: Catalog) {
    || key in {"hour", "day", "week", "month", "quarter", "year"}
    || (key != "" && key in catalog.dimensions && catalog.dimensions[key].dataType in {"date", "timestamp"})
  }

  function Category(m: Metric, catalog: Catalog): string -> bool {
    key => key != "" && key in m.allowedDimensions && !NamesTime(key, catalog)
  }

  function TimeKey(m: Metric, catalog: Catalog): string -> bool {
    key => key != "" && key in m.allowedDimensions && NamesTime(key, catalog)
  }

  lemma {:induction false} FirstFound(keys: seq<string>, wanted: string -> bool, right: string -> bool)
    requires forall k :: right(k) <==> k != "" && wanted(k)
    ensures var r := FirstWhere(NonEmpty(keys), wanted);
      if r.Some? then FirstIn(keys, right, r.value) else NoneIn(keys, right)
  {
    hide FirstIn;
    if keys != [] {
      var head, rest := keys[0], keys[1..];
      assert keys == [head] + rest;
      HeadSkipped(keys, wanted);
      if right(head) {
        FoundAtOnce(keys, right);
      } else {
        FirstFound(rest, wanted, right);
        forall key | FirstIn(rest, right, key) ensures FirstIn(keys, right, key) { FoundLater(keys, right, key); }
      }
    }
  }

  lemma OnlyKey(key: string, wanted: string -> bool)
    ensures FirstWhere(NonEmpty([key]), wanted) == if key != "" && wanted(key) then Some(key) else None
  {
    assert [key][1..] == [];
  }

  lemma HeadSkipped(keys: seq<string>, wanted: string -> bool)
    requires keys != []
    ensures FirstWhere(NonEmpty(keys), wanted)
      == if keys[0] != "" && wanted(keys[0]) then Some(keys[0]) else FirstWhere(NonEmpty(keys[1..]), wanted)
  {
    hide FirstWhere, NonEmpty;
    assert keys == [keys[0]] + keys[1..];
    NonEmptyAppend([keys[0]], keys[1..]);
    FirstOfTwo(NonEmpty([keys[0]]), NonEmpty(keys[1..]), wanted);
    OnlyKey(keys[0], wanted);
  }

  lemma FoundAtOnce(keys: seq<string>, right: string -> bool)
    requires keys != [] && right(keys[0])
    ensures FirstIn(keys, right, keys[0])
  {
  }

  lemma FoundLater(keys: seq<string>, right: string -> bool, key: string)
    requires keys != [] && !right(keys[0]) && FirstIn(keys[1..], right, key)
    ensures FirstIn(keys, right, key)
  {
    var rest := keys[1..];
    var i :| 0 <= i < |rest| && right(rest[i]) && rest[i] == key && forall j :: 0 <= j < i ==> !right(rest[j]);
    assert keys[i + 1] == rest[i] && forall j :: 0 < j < i + 1 ==> keys[j] == rest[j - 1];
  }

  lemma {:induction false} NonEmptyAppend(a: seq<string>, b: seq<string>)
    ensures NonEmpty(a + b) == NonEmpty(a) + NonEmpty(b)
  {
    if a == [] {
      assert a + b == b;
    } else {
      assert (a + b)[1..] == a[1..] + b;
      NonEmptyAppend(a[1..], b);
    }
  }

  lemma {:induction false} FirstOfTwo(a: seq<string>, b: seq<string>, wanted: string -> bool)
    ensures FirstWhere(a + b, wanted)
      == if FirstWhere(a, wanted).Some? then FirstWhere(a, wanted) else FirstWhere(b, wanted)
  {
    if a == [] {
      assert a + b == b;
    } else {
      assert (a + b)[1..] == a[1..] + b;
      FirstOfTwo(a[1..], b, wanted);
    }
  }

  lemma ChosenIsPreferred(request: Request, m: Metric, d: AnswerDecision, wanted: string -> bool, right: string -> bool)
    requires forall k :: right(k) <==> k != "" && wanted(k)
    ensures var r := FirstWhere(Candidates(request, m, d), wanted);
      r.Some? ==> Preferred(request, m, d, right, r.value)
  {
    hide FirstWhere, FirstIn, NoneIn, NonEmpty;
    var named, preferred, own := request.interpretation.dimensions, d.preferredDimensions, m.allowedDimensions;
    NonEmptyAppend(named + preferred, own);
    NonEmptyAppend(named, preferred);
    FirstOfTwo(NonEmpty(named) + NonEmpty(preferred), NonEmpty(own), wanted);
    FirstOfTwo(NonEmpty(named), NonEmpty(preferred), wanted);
    FirstFound(named, wanted, right);
    FirstFound(preferred, wanted, right);
    FirstFound(own, wanted, right);
  }

  /** A permitted category the request names is chosen, its first one; only then a preferred one;
      only then the metric's own first. */
  lemma CategoryChosen(request: Request, m: Metric, catalog: Catalog, d: AnswerDecision)
    ensures var r := CategoryDimension(request, m, catalog, d);
      if r.Some? then Preferred(request, m, d, Category(m, catalog), r.value)
      else NoneIn(m.allowedDimensions, Category(m, catalog))
  {
    hide Candidates, FirstWhere, Preferred;
    ChosenIsPreferred(request, m, d, k => k in m.allowedDimensions && !IsTime(k, catalog), Category(m, catalog));
  }

  /** The preferred time if it is permitted, else chosen like a category; without any, "day" if it
      is permitted. */
  lemma TimeChosen(request: Request, m: Metric, catalog: Catalog, d: AnswerDecision)
    ensures var r := OrDay(TimeDimension(request, m, catalog, d), m);
      if d.preferredTime != "" && d.preferredTime in m.allowedDimensions then r == Some(d.preferredTime)
      else if r.Some? then Preferred(request, m, d, TimeKey(m, catalog), r.value)
      else NoneIn(m.allowedDimensions, TimeKey(m, catalog))
  {
    hide Candidates, FirstWhere, Preferred;
    ChosenIsPreferred(request, m, d, k => k in m.allowedDimensions && IsTime(k, catalog), TimeKey(m, catalog));
  }

  // ---- What each query asks for ----

  /** The number asked for, or the nearest within the bounds. */
  predicate Near(limit: Option<int>, asked: int, low: int, high: int) {
    && limit.Some? && low <= limit.value <= high
    && (limit.value == asked || (asked < low && limit.value == low) || (asked > high && limit.value == high))
  }

  /** A query keeps the metric, the filters and the period of the request. */
  predicate KeepsQuestion(asked: Interpretation, i: Interpretation) {
    i.metric == asked.metric && i.filters == asked.filters && i.period == asked.period
  }

  predicate Ranks(s: Spec) { s.blockKey in {"comparison", "distribution", "report_comparison"} }

  predicate Trends(s: Spec) { s.blockKey in {"trend", "report_trend"} }

  predicate Figures(s: Spec) { s.blockKey in {"primary_kpi", "headline_kpi"} }

  predicate Lists(s: Spec) { s.blockKey in {"records", "report_records"} }

  /** A ranking groups by the chosen category, sorts downward, and wants about as many rows as the
      request asks for at the top. */
  ghost predicate RanksAsAsked(s: Spec, d: AnswerDecision, request: Request, m: Metric, catalog: Catalog) {
    var asked, i := request.interpretation, s.interpretation;
    var category := CategoryDimension(request, m, catalog, d);
    && s.mode.Aggregate? && KeepsQuestion(asked, i) && category.Some? && i.dimensions == [category.value]
    && i.direction == Some("desc")
    && (s.blockKey == "comparison" ==> Near(i.limit, OrElse(request.top, asked.limit, 10), 5, 15))
    && (s.blockKey == "report_comparison" ==> Near(i.limit, OrElse(request.top, asked.limit, 8), 5, 12))
    && (s.blockKey == "distribution" ==> Near(i.limit, OrElse(asked.limit, None, 25), 10, 50))
  }

  /** A trend groups by the chosen time key. */
  ghost predicate TrendsAsAsked(s: Spec, d: AnswerDecision, request: Request, m: Metric, catalog: Catalog) {
    var asked := request.interpretation;
    var time := OrDay(TimeDimension(request, m, catalog, d), m);
    && s.mode.Aggregate? && time.Some?
    && (exists limit :: s.interpretation == TrendRequest(asked, time.value, limit))
    && Near(s.interpretation.limit, OrElse(asked.limit, None, 30), 14, if s.blockKey == "trend" then 120 else 90)
  }

  /** A figure is one row over all facts of the period, its baseline over those of the one before;
      records are one more than a page of the rows asked about. */
  ghost predicate OthersAsAsked(s: Spec, request: Request, today: int) {
    var asked, i := request.interpretation, s.interpretation;
    if Lists(s) then s.mode.Record? && i == asked.(limit := Some(if s.blockKey == "records" then 26 else 9))
    else
      && s.mode.Aggregate? && i.metric == asked.metric && i.filters == asked.filters && i.dimensions == []
      && i.limit == Some(1)
      && (Figures(s) ==> i.period == asked.period)
      && (s.blockKey == "previous_period" ==>
            PreviousPeriod(asked.period, today).Some? && i.period == PreviousPeriod(asked.period, today).value)
  }

  lemma SizeAsked(a: Option<int>, b: Option<int>, default: int, low: int, high: int)
    requires low <= high
    ensures Near(Some(Clamp(OrElse(a, b, default), low, high)), OrElse(a, b, default), low, high)
  {
    hide OrElse, Clamp;
  }

  lemma ComparisonAsks(d: AnswerDecision, request: Request, m: Metric, catalog: Catalog)
    requires CategoryDimension(request, m, catalog, d).Some?
    ensures var category := CategoryDimension(request, m, catalog, d).value;
      && RanksAsAsked(ComparisonSpecs(request, category).primary, d, request, m, catalog)
      && RanksAsAsked(ReportComparison(request, category), d, request, m, catalog)
      && RanksAsAsked(DistributionSpecs(request, category).primary, d, request, m, catalog)
  {
    hide CategoryDimension, Clamp, OrElse, Near;
    var asked := request.interpretation.limit;
    SizeAsked(request.top, asked, 10, 5, 15);
    SizeAsked(request.top, asked, 8, 5, 12);
    SizeAsked(asked, None, 25, 10, 50);
  }

  lemma TrendAsks(d: AnswerDecision, request: Request, m: Metric, catalog: Catalog)
    requires OrDay(TimeDimension(request, m, catalog, d), m).Some?
    ensures var time := OrDay(TimeDimension(request, m, catalog, d), m).value;
      && TrendsAsAsked(TrendSpecs(request, time).primary, d, request, m, catalog)
      && TrendsAsAsked(ReportTrend(request.interpretation, time), d, request, m, catalog)
  {
    hide TimeDimension, OrDay, Clamp, OrElse, Near;
    var i, time := request.interpretation, OrDay(TimeDimension(request, m, catalog, d), m).value;
    SizeAsked(i.limit, None, 30, 14, 120);
    SizeAsked(i.limit, None, 30, 14, 90);
    assert TrendSpecs(request, time).primary.interpretation
      == TrendRequest(i, time, Clamp(OrElse(i.limit, None, 30), 14, 120));
    assert ReportTrend(i, time).interpretation == TrendRequest(i, time, Clamp(OrElse(i.limit, None, 30), 14, 90));
  }

  lemma KpiAsks(request: Request, today: int)
    ensures forall s :: s in AllSpecs(KpiSpecs(request, today)) ==>
      OthersAsAsked(s, request, today) && !Ranks(s) && !Trends(s)
    ensures var primary := KpiSpecs(request, today).primary.(blockKey := "headline_kpi");
      OthersAsAsked(primary, request, today) && !Ranks(primary) && !Trends(primary)
  {
    hide PreviousPeriod;
  }

  lemma RecordsAsk(request: Request, today: int)
    ensures var s := TableSpecs(request).primary; OthersAsAsked(s, request, today) && !Ranks(s) && !Trends(s)
    ensures var s := ReportRecords(request.interpretation);
      OthersAsAsked(s, request, today) && !Ranks(s) && !Trends(s)
  {
  }

  ghost predicate AsAsked(s: Spec, d: AnswerDecision, request: Request, m: Metric, catalog: Catalog, today: int) {
    if Ranks(s) then RanksAsAsked(s, d, request, m, catalog)
    else if Trends(s) then TrendsAsAsked(s, d, request, m, catalog)
    else OthersAsAsked(s, request, today)
  }

  /** What every query of every plan asks for, by its block. */
  lemma QueriesAskAsAsked(d: AnswerDecision, request: Request, catalog: Catalog, today: int, s: Spec)
    requires BuildPlan(d, request, catalog, today).Ok? && s in AllSpecs(BuildPlan(d, request, catalog, today).value)
    ensures PlannedMetric(d, request, catalog).Some?
    ensures AsAsked(s, d, request, PlannedMetric(d, request, catalog).value, catalog, today)
  {
    hide RanksAsAsked, TrendsAsAsked, OthersAsAsked, KpiSpecs, CategoryDimension, TimeDimension, OrDay, Clamp, OrElse;
    hide ReportSpecs;
    var m := PlannedMetric(d, request, catalog).value;
    var time, category := OrDay(TimeDimension(request, m, catalog, d), m), CategoryDimension(request, m, catalog, d);
    if category.Some? { ComparisonAsks(d, request, m, catalog); }
    if time.Some? { TrendAsks(d, request, m, catalog); }
    KpiAsks(request, today);
    RecordsAsk(request, today);
    if d.answerType.FullReport? { ReportAsks(d, request, m, catalog, today, time, category, s); }
  }

  lemma ReportAsks(d: AnswerDecision, request: Request, m: Metric, catalog: Catalog, today: int, time: Option<string>,
    category: Option<string>, s: Spec)
    requires time == OrDay(TimeDimension(request, m, catalog, d), m)
    requires category == CategoryDimension(request, m, catalog, d)
    requires s in AllSpecs(ReportSpecs(request, time, category, today))
    ensures AsAsked(s, d, request, m, catalog, today)
  {
    hide RanksAsAsked, TrendsAsAsked, OthersAsAsked, KpiSpecs, CategoryDimension, TimeDimension, OrDay, Clamp, OrElse;
    ReportSpecList(request, time, category, today);
    if category.Some? { ComparisonAsks(d, request, m, catalog); }
    if time.Some? { TrendAsks(d, request, m, catalog); }
    KpiAsks(request, today);
    RecordsAsk(request, today);
  }

  // ---- Which groups a ranking gets ----

  lemma SortedDescends(sorted: seq<Output>, j: nat, k: nat)
    requires OneKey(sorted) && SortedBy(sorted, 1, false) && j < k < |sorted|
    ensures AtMost(sorted[k].metric, sorted[j].metric)
  {
    hide AtMost;
    assert InOrder(sorted[j], sorted[k], 1, false) && sorted[j] in sorted && sorted[k] in sorted;
  }

  lemma HeadIsLargest(sorted: seq<Output>, n: nat)
    requires OneKey(sorted) && SortedBy(sorted, 1, false) && n <= |sorted|
    ensures forall j, k :: 0 <= j < k < n ==> AtMost(sorted[..n][k].metric, sorted[..n][j].metric)
    ensures forall g, h :: g in sorted[..n] && h in sorted[n..] ==> AtMost(h.metric, g.metric)
  {
    hide AtMost, SortedBy;
    forall j, k | 0 <= j < k < n ensures AtMost(sorted[..n][k].metric, sorted[..n][j].metric) {
      SortedDescends(sorted, j, k);
    }
    forall g, h | g in sorted[..n] && h in sorted[n..] ensures AtMost(h.metric, g.metric) {
      var j :| 0 <= j < n && sorted[j] == g;
      var k :| n <= k < |sorted| && sorted[k] == h;
      SortedDescends(sorted, j, k);
    }
  }

  lemma NothingLarger(rows: seq<Output>, sorted: seq<Output>, n: nat)
    requires multiset(sorted) == multiset(rows) && n <= |sorted|
    ensures |sorted| == |rows| && multiset(sorted[..n]) <= multiset(rows)
    ensures forall h :: h in multiset(rows) - multiset(sorted[..n]) ==> h in sorted[n..]
  {
    SameRows(sorted, rows);
    RestOfRows(sorted, n);
    assert sorted == sorted[..n] + sorted[n..];
    forall h | h in multiset(rows) - multiset(sorted[..n]) ensures h in sorted[n..] {
      assert h in multiset(sorted[n..]);
    }
  }

  /** Rows sorted downward by the figure and cut off: the largest, and nothing larger left out. */
  lemma LargestFirst(rows: seq<Output>, n: nat, answer: seq<Output>)
    requires OneKey(rows) && TopOf(rows, 1, false, n, answer)
    ensures |answer| == (if |rows| < n then |rows| else n) && multiset(answer) <= multiset(rows)
    ensures forall j, k :: 0 <= j < k < |answer| ==> AtMost(answer[k].metric, answer[j].metric)
    ensures forall g, h :: g in answer && h in multiset(rows) - multiset(answer) ==> AtMost(h.metric, g.metric)
  {
    hide AtMost, SortedBy;
    var sorted: seq<Output> :| multiset(sorted) == multiset(rows) && SortedBy(sorted, 1, false)
      && answer == sorted[..if |sorted| < n then |sorted| else n];
    SameRows(sorted, rows);
    HeadIsLargest(sorted, |answer|);
    NothingLarger(rows, sorted, |answer|);
  }

  lemma SortsDownward(i: Interpretation, category: string)
    requires i.dimensions == [category] && category != DAY && i.direction == Some("desc")
    ensures SortColumn(i.dimensions) == 1 && !Ascending(i)
  {
    LowerDirections();
    assert [category][1..] == [];
  }

  lemma OneKeyEach(i: Interpretation, s: Platform, db: Database)
    requires s.catalog.Built() && Governed(i, s.catalog, s.floats) && |i.dimensions| == 1
    ensures OneKey(GroupsAsked(i, s, db))
  {
    hide Governed, MetricValue, Grouped, Facts;
    var q := Asked(i, s.catalog, s.floats);
    assert |q.dimensions| == 1;
    GroupKeys(q, db, Facts(q, s.floats, db, s.today, Rows(db, q.grain.source)));
  }

  lemma RanksDownward(d: AnswerDecision, request: Request, catalog: Catalog, today: int, q: Spec)
    requires BuildPlan(d, request, catalog, today).Ok? && Ranks(q)
    requires q in AllSpecs(BuildPlan(d, request, catalog, today).value)
    ensures q.interpretation.direction == Some("desc") && |q.interpretation.dimensions| == 1
    ensures q.interpretation.dimensions[0] != DAY
  {
    hide BuildPlan, AllSpecs, OrElse, Near, AnswerPlan.Candidates;
    QueriesAskAsAsked(d, request, catalog, today, q);
    var m := PlannedMetric(d, request, catalog).value;
    assert !IsTime(CategoryDimension(request, m, catalog, d).value, catalog);
  }

  /** Whatever the database returns to the query of a ranking or a breakdown, it is the largest
      groups asked about, in descending order: as many as the n rows served allow, and no group
      left out has a larger figure than one listed. */
  lemma LargestGroupsListed(d: AnswerDecision, request: Request, s: Platform, q: Spec, db: Database, n: nat,
    answer: seq<Output>)
    requires BuildPlan(d, request, s.catalog, s.today).Ok?
    requires q in AllSpecs(BuildPlan(d, request, s.catalog, s.today).value)
    requires q.blockKey in {"comparison", "distribution", "report_comparison"}
    requires FanOutFree(q.interpretation, s.catalog, s.floats, db)
    requires MayReturn(q.interpretation, s, db, n, answer)
    ensures s.catalog.Built() && Governed(q.interpretation, s.catalog, s.floats)
    ensures var groups := GroupsAsked(q.interpretation, s, db);
      && |answer| == (if |groups| < n then |groups| else n) && multiset(answer) <= multiset(groups)
      && (forall g, h :: g in answer && h in multiset(groups) - multiset(answer) ==> AtMost(h.metric, g.metric))
      && forall j, k :: 0 <= j < k < |answer| ==> AtMost(answer[k].metric, answer[j].metric)
  {
    hide BuildPlan, FanOutFree, MayReturn, Governed, GroupsAsked, TopOf, AtMost, SortColumn, Ascending, AllSpecs;
    var i := q.interpretation;
    RanksDownward(d, request, s.catalog, s.today, q);
    FanOutFreeIsGoverned(i, s, db);
    ReturnMeans(i, s, db, n, answer);
    SortsDownward(i, i.dimensions[0]);
    OneKeyEach(i, s, db);
    LargestFirst(GroupsAsked(i, s, db), n, answer);
  }
}
