/** What the answers shown mean over the fact rows: the headline figure and its baseline, and the
    completeness of a page. */
module AnswerMeaning {
  import opened Wrappers
  import opened AsciiText
  import opened Literals
  import opened Sql
  import opened Planner
  import opened CompilerCorrectness
  import opened Periods
  import opened Payloads
  import opened AnswerPlan
  import opened ServedRows
  import LimitText
  import V = SqlValidator

  // ---- Rows as the database returns them ----

  function Labelled(dimensions: seq<Value>, names: seq<string>): Record
    requires |dimensions| == |names|
  {
    if names == [] then map[]
    else Labelled(dimensions[..|names| - 1], names[..|names| - 1])[names[|names| - 1] := dimensions[|names| - 1]]
  }

  function ReturnedRow(o: Output, names: seq<string>, metric: string): Record
    requires |o.dimensions| == |names|
  {
    Labelled(o.dimensions, names)[metric := o.metric]
  }

  function ReturnedRows(answer: seq<Output>, names: seq<string>, metric: string): seq<Record>
    requires forall o :: o in answer ==> |o.dimensions| == |names|
  {
    seq(|answer|, k requires 0 <= k < |answer| => ReturnedRow(answer[k], names, metric))
  }

  /** The request is governed and its figures can be computed without multiplying fact rows. */
  ghost predicate FanOutFree(i: Interpretation, catalog: Catalog, floats: Floats, db: Database) {
    && catalog.Built() && Governed(i, catalog, floats)
    && i.metric.value !in i.dimensions
    && DimensionKeysUnique(catalog, GrainOf(catalog.metrics[i.metric.value].grain).value, db)
  }

  /** The first `n` rows of an answer PostgreSQL may give to the compiled request, whatever
      number its last clause states. */
  ghost predicate MayReturn(i: Interpretation, s: Platform, db: Database, n: nat, answer: seq<Output>) {
    var p := PlanFor(i, s.catalog, s.floats, s.maxResultRows);
    && p.Ok?
    && var q := Compile(p.value);
      TopOf(Outputs(q, db, s.today), OrderIndex(q.select, q.orderBy.output), q.orderBy.ascending, n, answer)
  }

  /** The groups asked about and their figures. */
  ghost function GroupsAsked(i: Interpretation, s: Platform, db: Database): seq<Output>
    requires s.catalog.Built() && Governed(i, s.catalog, s.floats)
  {
    Results(Asked(i, s.catalog, s.floats), s.floats, db, s.today)
  }

  lemma ReturnMeans(i: Interpretation, s: Platform, db: Database, n: nat, answer: seq<Output>)
    requires FanOutFree(i, s.catalog, s.floats, db)
    ensures MayReturn(i, s, db, n, answer) <==>
      TopOf(GroupsAsked(i, s, db), SortColumn(i.dimensions), Ascending(i), n, answer)
  {
    hide PlanFor, TopOf, Outputs, Results, Governed, DimensionKeysUnique, OrderIndex, Ascending, SortColumn;
    CompileKeepsOrder(i, s.catalog, s.floats, s.maxResultRows);
    PlanOrder(i, s.catalog, s.floats, s.maxResultRows);
    CompiledYieldsResults(i, s.catalog, s.floats, s.maxResultRows, db, s.today);
  }

  /** Running with LIMIT k and cutting to r rows serves what the smaller of the two allows. */
  lemma ServedIsReturned(i: Interpretation, s: Platform, db: Database, k: nat, r: nat, served: seq<Output>)
    ensures (exists answer :: MayReturn(i, s, db, k, answer) && served == Prefix(answer, r))
      <==> MayReturn(i, s, db, V.Min(k, r), served)
  {
    hide SortedBy, Outputs, OrderIndex;
    var p := PlanFor(i, s.catalog, s.floats, s.maxResultRows);
    if p.Ok? {
      var q := Compile(p.value);
      CutTwice(Outputs(q, db, s.today), OrderIndex(q.select, q.orderBy.output), q.orderBy.ascending, k, r, served);
    }
  }

  ghost predicate Sorts(sorted: seq<Output>, rows: seq<Output>, index: nat, ascending: bool) {
    multiset(sorted) == multiset(rows) && SortedBy(sorted, index, ascending)
  }

  lemma TopIsPrefix(rows: seq<Output>, index: nat, ascending: bool, n: nat, answer: seq<Output>)
    ensures TopOf(rows, index, ascending, n, answer)
      <==> exists sorted :: Sorts(sorted, rows, index, ascending) && answer == Prefix(sorted, n)
  {
    hide SortedBy;
    if TopOf(rows, index, ascending, n, answer) {
      var sorted: seq<Output> :| multiset(sorted) == multiset(rows) && SortedBy(sorted, index, ascending)
        && answer == sorted[..if |sorted| < n then |sorted| else n];
      assert Sorts(sorted, rows, index, ascending) && answer == Prefix(sorted, n);
    }
    forall sorted | Sorts(sorted, rows, index, ascending) && answer == Prefix(sorted, n)
      ensures TopOf(rows, index, ascending, n, answer)
    {
      assert answer == sorted[..if |sorted| < n then |sorted| else n];
    }
  }

  lemma PrefixTwice<T>(items: seq<T>, k: nat, r: nat)
    ensures Prefix(Prefix(items, k), r) == Prefix(items, V.Min(k, r))
  {
  }

  lemma CutTwice(rows: seq<Output>, index: nat, ascending: bool, k: nat, r: nat, served: seq<Output>)
    ensures (exists answer :: TopOf(rows, index, ascending, k, answer) && served == Prefix(answer, r))
      <==> TopOf(rows, index, ascending, V.Min(k, r), served)
  {
    hide TopOf, Sorts, Prefix;
    TopIsPrefix(rows, index, ascending, V.Min(k, r), served);
    forall answer | TopOf(rows, index, ascending, k, answer) && served == Prefix(answer, r)
      ensures TopOf(rows, index, ascending, V.Min(k, r), served)
    {
      TopIsPrefix(rows, index, ascending, k, answer);
      var sorted :| Sorts(sorted, rows, index, ascending) && answer == Prefix(sorted, k);
      PrefixTwice(sorted, k, r);
    }
    if TopOf(rows, index, ascending, V.Min(k, r), served) {
      var sorted :| Sorts(sorted, rows, index, ascending) && served == Prefix(sorted, V.Min(k, r));
      PrefixTwice(sorted, k, r);
      TopIsPrefix(rows, index, ascending, k, Prefix(sorted, k));
    }
  }

  ghost function AskedFacts(i: Interpretation, s: Platform, db: Database): seq<Record>
    requires s.catalog.Built() && Governed(i, s.catalog, s.floats)
  {
    var q := Asked(i, s.catalog, s.floats);
    Facts(q, s.floats, db, s.today, Rows(db, q.grain.source))
  }

  ghost function FigureAsked(i: Interpretation, s: Platform, db: Database): Value
    requires s.catalog.Built() && Governed(i, s.catalog, s.floats)
  {
    MetricValue(Asked(i, s.catalog, s.floats), AskedFacts(i, s, db))
  }

  // ---- The headline figure ----

  lemma OneRowAnswer(o: Output, index: nat, ascending: bool, limit: nat, answer: seq<Output>)
    requires TopOf([o], index, ascending, limit, answer) && limit > 0
    ensures answer == [o]
  {
    var sorted: seq<Output> :| multiset(sorted) == multiset([o]) && SortedBy(sorted, index, ascending)
      && answer == sorted[..if |sorted| < limit then |sorted| else limit];
    assert |sorted| == |multiset(sorted)| == 1;
    assert sorted[0] in multiset(sorted);
  }

  /** A query without dimensions returns the one figure of its facts, if it may return a row. */
  lemma FigureReturned(i: Interpretation, s: Platform, db: Database, n: nat, answer: seq<Output>)
    requires FanOutFree(i, s.catalog, s.floats, db) && i.dimensions == [] && MayReturn(i, s, db, n, answer)
    ensures answer == if n == 0 then [] else [Output([], FigureAsked(i, s, db))]
  {
    hide Governed, DimensionKeysUnique, Facts, SortColumn, Ascending, MetricValue, MayReturn, TopOf;
    ReturnMeans(i, s, db, n, answer);
    assert Asked(i, s.catalog, s.floats).dimensions == [];
    if n == 0 {
      NoRowAnswer(GroupsAsked(i, s, db), SortColumn(i.dimensions), Ascending(i), answer);
    } else {
      OneRowAnswer(Output([], FigureAsked(i, s, db)), SortColumn(i.dimensions), Ascending(i), n, answer);
    }
  }

  lemma NoRowAnswer(rows: seq<Output>, index: nat, ascending: bool, answer: seq<Output>)
    requires TopOf(rows, index, ascending, 0, answer)
    ensures answer == []
  {
  }

  lemma SoleRow(v: Value, metric: string)
    ensures FirstNonNull(ReturnedRows([Output([], v)], [], metric), metric) == v
    ensures FirstNonNull(ReturnedRows([], [], metric), metric) == Null
  {
    assert ReturnedRows([Output([], v)], [], metric) == [ReturnedRow(Output([], v), [], metric)];
  }

  /** The request for the period before. */
  function PeriodBefore(i: Interpretation, today: int): Interpretation
    requires PreviousPeriod(i.period, today).Some?
  {
    i.(period := PreviousPeriod(i.period, today).value)
  }

  lemma PeriodsAreAskable(i: Interpretation, s: Platform, db: Database)
    requires PreviousPeriod(i.period, s.today).Some? && FanOutFree(i, s.catalog, s.floats, db)
    ensures FanOutFree(PeriodBefore(i, s.today), s.catalog, s.floats, db)
    ensures Governed(i.(period := Joint(i.period)), s.catalog, s.floats)
  {
    hide PreviousPeriod, Joint, GovernedFilter, GovernedDimension, GovernedPeriod, DimensionKeysUnique;
    PreviousIsAdjacent(i.period, s.today);
    JointIsGoverned(i.period, s.today);
  }

  /** The facts of a period and of the one before are disjoint, and together those of both. */
  lemma FactsSplit(i: Interpretation, s: Platform, db: Database)
    requires PreviousPeriod(i.period, s.today).Some? && FanOutFree(i, s.catalog, s.floats, db)
    ensures FanOutFree(PeriodBefore(i, s.today), s.catalog, s.floats, db)
    ensures Governed(i.(period := Joint(i.period)), s.catalog, s.floats)
    ensures multiset(AskedFacts(PeriodBefore(i, s.today), s, db)) + multiset(AskedFacts(i, s, db))
         == multiset(AskedFacts(i.(period := Joint(i.period)), s, db))
  {
    hide PreviousPeriod, Joint, GovernedFilter, GovernedDimension, GovernedPeriod, DimensionKeysUnique, Facts;
    PeriodsAreAskable(i, s, db);
    var q := Asked(i, s.catalog, s.floats);
    BaselineAndCurrentSplit(q, s.floats, db, s.today, Rows(db, q.grain.source));
    assert Asked(PeriodBefore(i, s.today), s.catalog, s.floats)
      == q.(period := PreviousPeriod(i.period, s.today).value);
    assert Asked(i.(period := Joint(i.period)), s.catalog, s.floats) == q.(period := Joint(i.period));
  }

  lemma KpiRequests(request: Request, today: int)
    ensures var p, i := KpiSpecs(request, today), Shaped(request.interpretation, [], 1, "desc");
      && p.primary.interpretation == i
      && (p.secondary != [] <==> PreviousPeriod(i.period, today).Some?)
      && (p.secondary != [] ==> p.secondary[0].interpretation == PeriodBefore(i, today))
  {
  }

  /** What shows of a figure when at most n rows are served. */
  function FigureShown(n: nat, figure: Value): Value { if n == 0 then Null else figure }

  /** The headline shows the figure over the facts of the period asked about, and its change
      since the figure over the facts of the period before, whenever both are numbers; under a
      row limit of zero a figure is missing. The two sets of facts are disjoint, and together
      they are the facts of the joint period. */
  lemma HeadlineIsTheFigure(request: Request, s: Platform, db: Database, n: nat, current: seq<Output>, m: nat,
    previous: seq<Output>)
    requires KpiSpecs(request, s.today).secondary != []
    requires var p := KpiSpecs(request, s.today);
      && FanOutFree(p.primary.interpretation, s.catalog, s.floats, db)
      && MayReturn(p.primary.interpretation, s, db, n, current)
      && MayReturn(p.secondary[0].interpretation, s, db, m, previous)
    ensures var p := KpiSpecs(request, s.today);
      var i, before := p.primary.interpretation, p.secondary[0].interpretation;
      && Governed(before, s.catalog, s.floats) && Governed(i.(period := Joint(i.period)), s.catalog, s.floats)
      && (forall o :: o in current || o in previous ==> o.dimensions == [])
      && var metric, figure := i.metric.value, FigureShown(n, FigureAsked(i, s, db));
      var baseline := FigureShown(m, FigureAsked(before, s, db));
      && HeadlineOf(s.texts, metric, ReturnedRows(current, [], metric), Some(ReturnedRows(previous, [], metric)))
           == Headline(figure,
                if NumberOf(s.texts, figure).Some? && NumberOf(s.texts, baseline).Some?
                then Some(ChangeOf(NumberOf(s.texts, figure).value, NumberOf(s.texts, baseline).value)) else None)
      && multiset(AskedFacts(before, s, db)) + multiset(AskedFacts(i, s, db))
           == multiset(AskedFacts(i.(period := Joint(i.period)), s, db))
  {
    hide PreviousPeriod, Joint, Governed, DimensionKeysUnique, ChangeOf, FigureAsked, AskedFacts, KpiSpecs;
    hide MayReturn, FanOutFree;
    hide ReturnedRows, FirstNonNull, NumberOf;
    var i := Shaped(request.interpretation, [], 1, "desc");
    KpiRequests(request, s.today);
    FactsSplit(i, s, db);
    FigureReturned(i, s, db, n, current);
    FigureReturned(PeriodBefore(i, s.today), s, db, m, previous);
    FanOutFreeIsGoverned(i, s, db);
    FanOutFreeIsGoverned(PeriodBefore(i, s.today), s, db);
    SoleRow(FigureAsked(i, s, db), i.metric.value);
    SoleRow(FigureAsked(PeriodBefore(i, s.today), s, db), i.metric.value);
  }

  lemma FanOutFreeIsGoverned(i: Interpretation, s: Platform, db: Database)
    requires FanOutFree(i, s.catalog, s.floats, db)
    ensures s.catalog.Built() && Governed(i, s.catalog, s.floats) && i.metric.Some?
  {
  }

  lemma JointIsGoverned(p: Period, today: int)
    requires PreviousPeriod(p, today).Some?
    ensures GovernedPeriod(Joint(p))
  {
  }

  // ---- The records asked for ----

  /** A filter a record query heeds: one the metric lists and the catalogue knows. */
  ghost predicate HeedsFilter(i: Interpretation, m: Metric, catalog: Catalog, f: (string, FilterValue)) {
    f in i.filters && f.0 in m.allowedFilters && f.0 != "" && f.0 in catalog.filters
  }

  lemma HeededGoverned(i: Interpretation, m: Metric, catalog: Catalog, floats: Floats, grain: Grain)
    requires PlanFilters(catalog, floats, m, grain, HeededFilters(m, catalog, i.filters)).Ok?
    ensures var planned := PlanFilters(catalog, floats, m, grain, HeededFilters(m, catalog, i.filters)).value;
      && (forall c :: c in Clauses(planned) <==> exists f ::
            && HeedsFilter(i, m, catalog, f) && PlanFilter(catalog, floats, m, grain, f).Ok?
            && PlanFilter(catalog, floats, m, grain, f).value.clause == c)
      && forall f :: HeedsFilter(i, m, catalog, f) ==>
           PlanFilter(catalog, floats, m, grain, f).Ok? && GovernedFilter(m, catalog, floats, f.0, f.1)
  {
    hide PlanFilter, GovernedFilter;
    var filters := HeededFilters(m, catalog, i.filters);
    FiltersSucceed(catalog, floats, m, grain, filters);
    var planned := PlanFilters(catalog, floats, m, grain, filters).value;
    assert forall f :: f in filters <==> HeedsFilter(i, m, catalog, f);
    forall k | 0 <= k < |filters| ensures PlanFilter(catalog, floats, m, grain, filters[k]) == Ok(planned[k]) { }
    assert forall k :: 0 <= k < |filters| ==> Clauses(planned)[k] == planned[k].clause;
    forall c | c in Clauses(planned)
      ensures exists f ::
        && HeedsFilter(i, m, catalog, f) && PlanFilter(catalog, floats, m, grain, f).Ok?
        && PlanFilter(catalog, floats, m, grain, f).value.clause == c
    {
      var k :| 0 <= k < |planned| && Clauses(planned)[k] == c;
      assert filters[k] in filters && HeedsFilter(i, m, catalog, filters[k]);
    }
    forall f | HeedsFilter(i, m, catalog, f)
      ensures PlanFilter(catalog, floats, m, grain, f).Ok? && GovernedFilter(m, catalog, floats, f.0, f.1)
      ensures PlanFilter(catalog, floats, m, grain, f).value.clause in Clauses(planned)
    {
      assert f in filters;
      var k :| 0 <= k < |filters| && filters[k] == f;
      assert Clauses(planned)[k] == planned[k].clause;
      FilterSucceeds(catalog, floats, m, grain, f);
    }
  }

  lemma HeededMeans(i: Interpretation, m: Metric, catalog: Catalog, floats: Floats, grain: Grain, env: Env, today: int,
    f: (string, FilterValue))
    requires HeedsFilter(i, m, catalog, f) && GovernedFilter(m, catalog, floats, f.0, f.1)
    requires PlanFilter(catalog, floats, m, grain, f).Ok?
    ensures Holds(PlanFilter(catalog, floats, m, grain, f).value.clause, env, today)
      <==> Matches(floats, catalog.filters[f.0], f.1, Cell(env, ExpressionOf(catalog.filters[f.0], grain)))
  {
    hide PlanFilter, Holds, Matches, Cell, PlansFilter;
    PlannedFilterParts(catalog, floats, m, grain, f);
    FilterMeans(PlanFilter(catalog, floats, m, grain, f).value, catalog.filters[f.0], f.1, grain, floats, env, today);
  }

  /** The conditions of a record query hold of a joined row exactly if the row matches every filter
      that is heeded and lies in the period asked about; it reads the fact table of the metric's
      grain, and as many rows as asked for up to the global maximum. */
  lemma RecordsMean(i: Interpretation, catalog: Catalog, floats: Floats, maxResultRows: nat, env: Env, today: int)
    requires CompileRecords(i, catalog, floats, maxResultRows).Ok?
    ensures i.metric.Some? && i.metric.value in catalog.metrics
    ensures CompileRecords(i, catalog, floats, maxResultRows).value.RecordQuery?
    ensures var q := CompileRecords(i, catalog, floats, maxResultRows).value.records;
      var m := catalog.metrics[i.metric.value];
      && q.grain == (if m.grain == "order" then ORDER else TENDER) && q.limit == RowsWanted(i, maxResultRows)
      && ((forall c :: c in Clauses(q.filters) + q.period ==> Holds(c, env, today)) <==>
            && (forall f :: HeedsFilter(i, m, catalog, f) ==>
                  Matches(floats, catalog.filters[f.0], f.1, Cell(env, ExpressionOf(catalog.filters[f.0], q.grain))))
            && InPeriod(i.period, today, Cell(env, ColumnRef(q.grain.base, q.grain.timeColumn))))
  {
    hide Holds, Matches, InPeriod, PlanFilters, PlanFilter, PeriodClauses, PlanDimensions, Cell, GovernedFilter;
    hide ExpressionOf;
    var q, m := CompileRecords(i, catalog, floats, maxResultRows).value.records, catalog.metrics[i.metric.value];
    HeededGoverned(i, m, catalog, floats, q.grain);
    forall f | HeedsFilter(i, m, catalog, f)
      ensures Holds(PlanFilter(catalog, floats, m, q.grain, f).value.clause, env, today)
        <==> Matches(floats, catalog.filters[f.0], f.1, Cell(env, ExpressionOf(catalog.filters[f.0], q.grain)))
    {
      HeededMeans(i, m, catalog, floats, q.grain, env, today, f);
    }
    PeriodMeans(i.period, ColumnRef(q.grain.base, q.grain.timeColumn), env, today);
  }

  // ---- A page of records ----

  /** The rows served of those found: the final clause limits them, then the executor does. */
  function Served(found: seq<Record>, f: Final): seq<Record> { Prefix(Prefix(found, f.limit), f.rowLimit) }

  predicate TellsWhetherMore(page: Page, found: seq<Record>) { page.hasMore <==> |found| > |page.rows| }

  /** A passed table query for 26 records shows at most 25 of those its final text finds, and says
      whether there are more, rightly exactly when it was served more than a page or all of them.
      What it is served is limited by its own clause, every policy, the global cap, and by a
      literal that looks like a LIMIT clause. */
  lemma PageIsHonestIff(s: V.Settings, w: V.World, body: string, sep: char, i: Interpretation, catalog: Catalog,
    floats: Floats,
    columns: seq<V.ColumnUse>, found: seq<Record>) returns (t: V.Tree)
    requires body != "" && !IsSpace(body[0]) && IsSpace(sep)
    requires CompileRecords(i.(limit := Some(26)), catalog, floats, s.maxResultRows).Ok?
    requires var records := CompileRecords(i.(limit := Some(26)), catalog, floats, s.maxResultRows).value;
      records.RecordQuery? && V.Validate(s, w, Clausal(body, sep, records.records.limit), Some(columns)).Passed?
    ensures var records := CompileRecords(i.(limit := Some(26)), catalog, floats, s.maxResultRows).value.records;
      && w.parse(Clausal(body, sep, records.limit)) == Some([t]) && (forall r :: r in t.tables ==> r.id in w.policies)
      && var cap := V.RowCap(s, w.policies, t.tables);
      var f, n := FinalOf(body, records.limit, cap), ServedLimit(body, records.limit, cap);
      var v := V.Validate(s, w, Clausal(body, sep, records.limit), Some(columns)).validated;
      var page := PageOf(Served(found, f), TABLE_PAGE);
      && v.sql == Clausal(f.body, sep, f.limit) && v.rowLimit == f.rowLimit
      && page.rows == Prefix(found, V.Min(n, 25))
      && (TellsWhetherMore(page, found) <==> n > 25 || |found| <= n)
  {
    hide CompileRecords, V.Validate, V.RowCap, LimitText.ExtractLimit, LimitText.Rewrite, Clausal;
    var limit := CompileRecords(i.(limit := Some(26)), catalog, floats, s.maxResultRows).value.records.limit;
    t := PassedIsFinal(s, w, body, sep, limit, Some(columns));
  }
}
